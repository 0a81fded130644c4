/** The phased multi-worker protocol: coordinator/multi_cr_client.cpp against the signal handlers of
    src/vGPU.cpp, one mailbox word a worker (src/comm/share_mem.cpp), in every interleaving. */
module Protocol {
  import opened Wrappers
  import opened Exchanged = Exchange

  const FINISH_MSG: nat := 0
  const CKPT_MSG: nat := 11
  const RESTORE_MSG: nat := 12
  const IPC_TEARDOWN_MSG: nat := 15
  const IPC_EXPORT_MSG: nat := 16
  const IPC_IMPORT_MSG: nat := 17

  datatype Signal = CkptSignal | RestoreSignal | TeardownSignal | RebuildSignal

  /** What a handler does. Export ends with the block published and the fd server started. */
  datatype Work = Teardown | Dump | Restore | Export | Import | Ignored

  /** The handler a signal enters, and the branch it takes on the message it reads. */
  function Dispatch(sig: Signal, msg: nat): Work {
    match sig
    case CkptSignal => if msg == CKPT_MSG then Dump else if msg == RESTORE_MSG then Restore else Ignored
    case RestoreSignal => if msg == CKPT_MSG then Dump else if msg == RESTORE_MSG then Restore else Ignored
    case TeardownSignal =>
      if msg == IPC_TEARDOWN_MSG then Teardown else if msg == IPC_EXPORT_MSG then Export
      else if msg == IPC_IMPORT_MSG then Import else Ignored
    case RebuildSignal =>
      if msg == IPC_TEARDOWN_MSG then Teardown else if msg == IPC_EXPORT_MSG then Export
      else if msg == IPC_IMPORT_MSG then Import else Ignored
  }

  datatype CoordinatorAct = Freeze | Unfreeze | Exchange

  /** One phase of the coordinator: a broadcast_and_wait, or something it does itself. */
  datatype Step = Broadcast(msg: nat, sig: Signal) | Act(action: CoordinatorAct)

  /** Where the coordinator is in its current phase: about to write worker i's mailbox, about to
      signal worker i, polling worker i, or about to act. */
  datatype Position = Sending(i: nat) | Signalling(i: nat) | Waiting(i: nat) | Acting

  /** Handler progress: entered but message not read yet, working, work done but not reported. */
  datatype Handler = Idle | Entered(sig: Signal) | Working(work: Work) | Reporting

  datatype Worker = Worker(mail: nat, pending: Option<Signal>, handler: Handler,
                           started: seq<Work>, finished: seq<Work>)

  /** step == |script| means the coordinator is done. acts are the actions it has carried out. */
  datatype State = State(step: nat, at: Position, workers: seq<Worker>, acts: seq<CoordinatorAct>)

  function Enter(script: seq<Step>, k: nat): Position {
    if k < |script| && script[k].Broadcast? then Sending(0) else Acting
  }

  ghost predicate Init(script: seq<Step>, s: State) {
    && s.step == 0 && s.at == Enter(script, 0) && s.acts == []
    && forall w | 0 <= w < |s.workers| ::
         && s.workers[w].pending == None && s.workers[w].handler == Idle
         && s.workers[w].started == [] && s.workers[w].finished == []
  }

  /** The next coordinator step, or None when it has to keep polling or is done. */
  function CoordinatorNext(script: seq<Step>, s: State): Option<State>
  {
    var n := |s.workers|;
    if s.step >= |script| then None else
      match script[s.step]
      case Act(a) =>
        if s.at.Acting?
        then Some(s.(step := s.step + 1, at := Enter(script, s.step + 1), acts := s.acts + [a]))
        else None
      case Broadcast(msg, sig) =>
        match s.at
        case Sending(i) =>
          if i < n
          then Some(s.(at := Signalling(i), workers := s.workers[i := s.workers[i].(mail := msg)]))
          else Some(s.(at := Waiting(0)))
        case Signalling(i) =>
          if i < n
          then Some(s.(at := Sending(i + 1), workers := s.workers[i := s.workers[i].(pending := Some(sig))]))
          else None
        case Waiting(i) =>
          if i < n
          then if s.workers[i].mail == FINISH_MSG then Some(s.(at := Waiting(i + 1))) else None
          else Some(s.(step := s.step + 1, at := Enter(script, s.step + 1)))
        case Acting => None
  }

  /** The next step of one worker, or None when nothing is pending. */
  function WorkerNext(w: Worker): Option<Worker> {
    match w.handler
    case Idle => if w.pending.Some? then Some(w.(pending := None, handler := Entered(w.pending.value))) else None
    case Entered(sig) =>
      var work := Dispatch(sig, w.mail);
      Some(w.(handler := Working(work), started := w.started + [work]))
    case Working(work) => Some(w.(handler := Reporting, finished := w.finished + [work]))
    case Reporting => Some(w.(handler := Idle, mail := FINISH_MSG))
  }

  /** Any one process takes a step. */
  ghost predicate Next(script: seq<Step>, s: State, t: State) {
    || CoordinatorNext(script, s) == Some(t)
    || exists w :: 0 <= w < |s.workers| && StepOf(s, w, t)
  }

  ghost predicate StepOf(s: State, w: nat, t: State)
    requires w < |s.workers|
  {
    WorkerNext(s.workers[w]).Some? && t == s.(workers := s.workers[w := WorkerNext(s.workers[w]).value])
  }

  ghost predicate IsRun(script: seq<Step>, run: seq<State>) {
    && run != [] && Init(script, run[0])
    && forall i | 0 <= i < |run| - 1 :: StepAt(script, run, i)
  }

  ghost predicate StepAt(script: seq<Step>, run: seq<State>, i: nat)
    requires i < |run| - 1
  {
    Next(script, run[i], run[i + 1])
  }

  /** The work the broadcasts among the given phases call for, in order. */
  function WorksOf(script: seq<Step>): seq<Work> {
    if script == [] then [] else
      var last := script[|script| - 1];
      WorksOf(script[..|script| - 1]) + (if last.Broadcast? then [Dispatch(last.sig, last.msg)] else [])
  }

  function ActsOf(script: seq<Step>): seq<CoordinatorAct> {
    if script == [] then [] else
      var last := script[|script| - 1];
      ActsOf(script[..|script| - 1]) + (if last.Act? then [last.action] else [])
  }

  /** No broadcast uses the word that means "finished". */
  ghost predicate Sensible(script: seq<Step>) {
    forall k | 0 <= k < |script| && script[k].Broadcast? :: script[k].msg != FINISH_MSG
  }

  /** Not taking part in the current phase yet. */
  ghost predicate Quiet(w: Worker, done: seq<Work>) {
    w.pending == None && w.handler == Idle && w.started == done && w.finished == done
  }

  /** Signalled in the current phase: the signal is pending, the handler is somewhere, or it is
      through. */
  ghost predicate InFlight(w: Worker, done: seq<Work>, msg: nat, sig: Signal) {
    var work := Dispatch(sig, msg);
    || (w.mail == msg && w.pending == Some(sig) && w.handler == Idle && w.started == done && w.finished == done)
    || (w.mail == msg && w.pending == None && w.handler == Entered(sig) && w.started == done && w.finished == done)
    || (w.mail == msg && w.pending == None && w.handler == Working(work) && w.started == done + [work]
       && w.finished == done)
    || (w.mail == msg && w.pending == None && w.handler == Reporting && w.started == done + [work]
       && w.finished == done + [work])
    || Through(w, done + [work])
  }

  ghost predicate Through(w: Worker, done: seq<Work>) {
    w.mail == FINISH_MSG && Quiet(w, done)
  }

  /** What holds of worker w while the coordinator is in phase k at position `at`. */
  ghost predicate WorkerInv(script: seq<Step>, k: nat, at: Position, i: nat, w: Worker)
    requires k < |script| && script[k].Broadcast?
  {
    var done, msg, sig := WorksOf(script[..k]), script[k].msg, script[k].sig;
    match at
    case Sending(j) => if i < j then InFlight(w, done, msg, sig) else Quiet(w, done)
    case Signalling(j) =>
      if i < j then InFlight(w, done, msg, sig) else Quiet(w, done) && (i == j ==> w.mail == msg)
    case Waiting(j) =>
      if i < j then Through(w, done + [Dispatch(sig, msg)]) else InFlight(w, done, msg, sig)
    case Acting => false
  }

  ghost predicate Inv(script: seq<Step>, s: State) {
    && s.step <= |script| && s.acts == ActsOf(script[..s.step])
    && if s.step < |script| && script[s.step].Broadcast?
       then
         && !s.at.Acting? && (s.at.Signalling? ==> s.at.i < |s.workers|)
         && (s.at.Sending? || s.at.Waiting? ==> s.at.i <= |s.workers|)
         && forall i | 0 <= i < |s.workers| :: WorkerInv(script, s.step, s.at, i, s.workers[i])
       else s.at.Acting? && forall i | 0 <= i < |s.workers| :: Quiet(s.workers[i], WorksOf(script[..s.step]))
  }

  lemma {:induction false} PhaseDone(script: seq<Step>, k: nat)
    requires k < |script|
    ensures script[k].Broadcast? ==>
              WorksOf(script[..k + 1]) == WorksOf(script[..k]) + [Dispatch(script[k].sig, script[k].msg)]
    ensures script[k].Act? ==> WorksOf(script[..k + 1]) == WorksOf(script[..k])
    ensures ActsOf(script[..k + 1]) == ActsOf(script[..k]) + (if script[k].Act? then [script[k].action] else [])
  {
    assert script[..k + 1][..k] == script[..k];
  }

  lemma {:induction false} CoordinatorKeeps(script: seq<Step>, s: State)
    requires Sensible(script) && Inv(script, s) && CoordinatorNext(script, s).Some?
    ensures Inv(script, CoordinatorNext(script, s).value)
  {
    PhaseDone(script, s.step);
  }

  lemma {:induction false} WorkerKeeps(script: seq<Step>, s: State, w: nat, t: State)
    requires Sensible(script) && Inv(script, s) && w < |s.workers| && StepOf(s, w, t)
    ensures Inv(script, t)
  {
  }

  /** Every state of every run satisfies the invariant. */
  lemma {:induction false} RunKeeps(script: seq<Step>, run: seq<State>, i: nat)
    requires Sensible(script) && IsRun(script, run) && i < |run|
    ensures Inv(script, run[i]) && |run[i].workers| == |run[0].workers|
  {
    if i == 0 {
      assert script[..0] == [];
    } else {
      RunKeeps(script, run, i - 1);
      assert StepAt(script, run, i - 1);
      if CoordinatorNext(script, run[i - 1]) == Some(run[i]) {
        CoordinatorKeeps(script, run[i - 1]);
      } else {
        var w :| 0 <= w < |run[i - 1].workers| && StepOf(run[i - 1], w, run[i]);
        WorkerKeeps(script, run[i - 1], w, run[i]);
      }
    }
  }

  lemma {:induction false} WorksGrow(script: seq<Step>, j: nat, k: nat)
    requires j <= k <= |script|
    ensures WorksOf(script[..j]) <= WorksOf(script[..k])
    decreases k
  {
    if j < k {
      WorksGrow(script, j, k - 1);
      PhaseDone(script, k - 1);
    }
  }

  lemma {:induction false} WorkerBounds(script: seq<Step>, k: nat, at: Position, i: nat, w: Worker)
    requires k < |script| && script[k].Broadcast? && WorkerInv(script, k, at, i, w)
    ensures var done := WorksOf(script[..k]);
            done <= w.finished <= w.started <= done + [Dispatch(script[k].sig, script[k].msg)]
  {
  }

  lemma {:induction false} StateBounds(script: seq<Step>, s: State, w: nat)
    requires Inv(script, s) && w < |s.workers|
    ensures WorksOf(script[..s.step]) <= s.workers[w].finished <= s.workers[w].started
    ensures s.step < |script| ==> s.workers[w].started <= WorksOf(script[..s.step + 1])
    ensures s.step == |script| ==> s.workers[w].started == WorksOf(script[..s.step])
  {
    if s.step < |script| {
      PhaseDone(script, s.step);
      if script[s.step].Broadcast? {
        WorkerBounds(script, s.step, s.at, w, s.workers[w]);
      }
    }
  }

  /** In every state of every run: a worker has finished everything the completed phases call for,
      and has started nothing beyond the current phase. */
  lemma {:induction false} PhaseBounds(script: seq<Step>, run: seq<State>, i: nat, w: nat)
    requires Sensible(script) && IsRun(script, run) && i < |run| && w < |run[i].workers|
    ensures run[i].step <= |script|
    ensures WorksOf(script[..run[i].step]) <= run[i].workers[w].finished <= run[i].workers[w].started
    ensures run[i].step < |script| ==> run[i].workers[w].started <= WorksOf(script[..run[i].step + 1])
    ensures run[i].step == |script| ==> run[i].workers[w].started == WorksOf(script)
  {
    RunKeeps(script, run, i);
    StateBounds(script, run[i], w);
    assert script[..|script|] == script;
  }

  /** Every worker handles the broadcast messages in order, each exactly once: what it has started
      is always a prefix of the script's work, at most the last of it unfinished, and when the
      coordinator is done it has finished all of it. */
  lemma {:induction false} HandledExactlyOnce(script: seq<Step>, run: seq<State>, i: nat, w: nat)
    requires Sensible(script) && IsRun(script, run) && i < |run| && w < |run[i].workers|
    ensures run[i].workers[w].started <= WorksOf(script)
    ensures run[i].workers[w].finished <= run[i].workers[w].started
    ensures |run[i].workers[w].started| <= |run[i].workers[w].finished| + 1
    ensures run[i].step == |script| ==> run[i].workers[w].finished == WorksOf(script)
  {
    PhaseBounds(script, run, i, w);
    var k := run[i].step;
    assert script[..|script|] == script;
    if k < |script| {
      WorksGrow(script, k + 1, |script|);
      PhaseDone(script, k);
    }
  }

  /** The barrier: once any worker has started its j-th message, all workers have finished the j-1
      before it. */
  lemma {:induction false} NoOvertaking(script: seq<Step>, run: seq<State>, i: nat, v: nat, w: nat)
    requires Sensible(script) && IsRun(script, run) && i < |run|
    requires v < |run[i].workers| && w < |run[i].workers|
    ensures |run[i].workers[v].started| <= |run[i].workers[w].finished| + 1
  {
    PhaseBounds(script, run, i, v);
    PhaseBounds(script, run, i, w);
    assert script[..|script|] == script;
    if run[i].step < |script| {
      PhaseDone(script, run[i].step);
    }
  }

  /** An action is carried out only when all earlier broadcasts are finished everywhere, and no
      handler runs meanwhile. */
  lemma {:induction false} ActionsAlone(script: seq<Step>, run: seq<State>, i: nat, w: nat)
    requires Sensible(script) && IsRun(script, run) && i < |run| && w < |run[i].workers|
    requires run[i].step < |script| && script[run[i].step].Act?
    ensures run[i].workers[w].handler == Idle && run[i].workers[w].pending == None
    ensures run[i].workers[w].finished == WorksOf(script[..run[i].step])
  {
    RunKeeps(script, run, i);
  }

  /** The phases of do_checkpoint and do_restore; skip is the -n flag. */
  function CheckpointScript(skip: bool): seq<Step> {
    (if skip then [] else [Broadcast(IPC_TEARDOWN_MSG, TeardownSignal)]) +
    [Broadcast(CKPT_MSG, CkptSignal), Act(Freeze)]
  }

  function RestoreScript(skip: bool): seq<Step> {
    [Act(Unfreeze), Broadcast(RESTORE_MSG, RestoreSignal)] +
    (if skip then [] else [Broadcast(IPC_EXPORT_MSG, RebuildSignal), Act(Exchange),
                           Broadcast(IPC_IMPORT_MSG, RebuildSignal)])
  }

  lemma {:induction false} ScriptsSensible(skip: bool)
    ensures Sensible(CheckpointScript(skip)) && Sensible(RestoreScript(skip))
  {
  }

  lemma {:induction false} RestoreSteps()
    ensures RestoreScript(false)
            == [Act(Unfreeze), Broadcast(RESTORE_MSG, RestoreSignal), Broadcast(IPC_EXPORT_MSG, RebuildSignal),
                                     Act(Exchange), Broadcast(IPC_IMPORT_MSG, RebuildSignal)]
  {
  }

  lemma {:induction false} RestorePhase2()
    ensures WorksOf(RestoreScript(false)[..2]) == [Restore] && ActsOf(RestoreScript(false)[..2]) == [Unfreeze]
  {
  }

  lemma {:induction false} RestorePhase3()
    ensures WorksOf(RestoreScript(false)[..3]) == [Restore, Export] && ActsOf(RestoreScript(false)[..3]) == [Unfreeze]
  {
    RestoreSteps();
    RestorePhase2();
    PhaseDone(RestoreScript(false), 2);
  }

  lemma {:induction false} RestorePhase4()
    ensures WorksOf(RestoreScript(false)[..4]) == [Restore, Export]
            && ActsOf(RestoreScript(false)[..4]) == [Unfreeze, Exchange]
  {
    RestoreSteps();
    RestorePhase3();
    PhaseDone(RestoreScript(false), 3);
  }

  /** In every run of a restore: when a worker has started to import, every worker has restored its data
      and finished its export handler, and the exchange has been done. */
  lemma {:induction false} ImportAfterEveryExport(run: seq<State>, i: nat, v: nat, w: nat)
    requires IsRun(RestoreScript(false), run) && i < |run| && v < |run[i].workers| && w < |run[i].workers|
    requires Import in run[i].workers[v].started
    ensures [Restore, Export] <= run[i].workers[w].finished && [Unfreeze, Exchange] <= run[i].acts
  {
    var r := RestoreScript(false);
    ScriptsSensible(false);
    RestorePhase4();
    PhaseBounds(r, run, i, v);
    PhaseBounds(r, run, i, w);
    RunKeeps(r, run, i);
    var k := run[i].step;
    NoImportBefore(k, run[i].workers[v].started);
    WorksGrow(r, 4, k);
    ActsGrow(r, 4, k);
  }

  lemma {:induction false} NoImportBefore(k: nat, started: seq<Work>)
    requires k <= |RestoreScript(false)| && Import in started
    requires k < |RestoreScript(false)| ==> started <= WorksOf(RestoreScript(false)[..k + 1])
    ensures 4 <= k
  {
    if k < 4 {
      WorksGrow(RestoreScript(false), k + 1, 4);
      RestorePhase4();
    }
  }

  lemma {:induction false} ActsGrow(script: seq<Step>, j: nat, k: nat)
    requires j <= k <= |script|
    ensures ActsOf(script[..j]) <= ActsOf(script[..k])
    decreases k
  {
    if j < k {
      ActsGrow(script, j, k - 1);
      PhaseDone(script, k - 1);
    }
  }

  // ----- every run ends -----

  /** Nobody can take a step. */
  ghost predicate Stuck(script: seq<Step>, s: State) {
    forall t :: !Next(script, s, t)
  }

  /** As long as the coordinator is not done, it can take a step or the worker it polls can. */
  lemma {:induction false} NoDeadlock(script: seq<Step>, s: State)
    requires Sensible(script) && Inv(script, s) && s.step < |script|
    ensures !Stuck(script, s)
  {
    if CoordinatorNext(script, s).None? {
      assert s.at.Waiting? && WorkerInv(script, s.step, s.at, s.at.i, s.workers[s.at.i]);
      var w := s.at.i;
      var t := s.(workers := s.workers[w := WorkerNext(s.workers[w]).value]);
      assert StepOf(s, w, t);
      assert Next(script, s, t);
    } else {
      assert Next(script, s, CoordinatorNext(script, s).value);
    }
  }

  /** Steps a handler has still to take. */
  ghost function WorkerLeft(w: Worker): nat {
    var pending := if w.pending.Some? then 4 else 0;
    match w.handler
    case Idle => pending
    case Entered(_) => pending + 3
    case Working(_) => pending + 2
    case Reporting => pending + 1
  }

  ghost function WorkersLeft(workers: seq<Worker>): nat {
    if workers == [] then 0 else WorkersLeft(workers[..|workers| - 1]) + WorkerLeft(workers[|workers| - 1])
  }

  /** What the coordinator has still to do in its current phase, with n workers; a signal counts for the steps of the
      handler it starts. */
  ghost function PhaseLeft(n: nat, at: Position): int {
    match at
    case Sending(i) => 6 * (n - i) + n + 2
    case Signalling(i) => 6 * (n - i) + n + 1
    case Waiting(i) => n - i + 1
    case Acting => 1
  }

  /** What is left of a run. */
  ghost function Left(script: seq<Step>, s: State): int {
    WorkersLeft(s.workers) + CoordinatorLeft(|script|, |s.workers|, s.step, s.at)
  }

  ghost function CoordinatorLeft(phases: nat, n: nat, step: nat, at: Position): int {
    if step < phases then (phases - step - 1) * (7 * n + 3) + PhaseLeft(n, at) else 0
  }

  lemma {:induction false} WorkersLeftUpdate(workers: seq<Worker>, i: nat, w: Worker)
    requires i < |workers|
    ensures WorkersLeft(workers[i := w]) == WorkersLeft(workers) - WorkerLeft(workers[i]) + WorkerLeft(w)
  {
    var n := |workers| - 1;
    if i < n {
      assert workers[i := w][..n] == workers[..n][i := w];
      WorkersLeftUpdate(workers[..n], i, w);
    } else {
      assert workers[i := w][..n] == workers[..n];
    }
  }

  lemma {:induction false} PhaseEnds(left: nat, n: nat, at: Position)
    requires at == Sending(0) || at == Acting
    ensures left > 0 ==> (left - 1) * (7 * n + 3) + PhaseLeft(n, at) < left * (7 * n + 3) + 1
  {
    if left > 0 {
      assert left * (7 * n + 3) == (left - 1) * (7 * n + 3) + (7 * n + 3);
    }
  }

  lemma {:induction false} CoordinatorGetsOn(script: seq<Step>, s: State)
    requires Sensible(script) && Inv(script, s) && CoordinatorNext(script, s).Some?
    ensures Left(script, CoordinatorNext(script, s).value) < Left(script, s)
  {
    var t := CoordinatorNext(script, s).value;
    var n := |s.workers|;
    if t.step > s.step {
      PhaseEnds(|script| - s.step - 1, n, t.at);
    } else if s.at.Sending? && s.at.i < n {
      WorkersLeftUpdate(s.workers, s.at.i, t.workers[s.at.i]);
    } else if s.at.Signalling? {
      assert WorkerInv(script, s.step, s.at, s.at.i, s.workers[s.at.i]);
      WorkersLeftUpdate(s.workers, s.at.i, t.workers[s.at.i]);
    }
  }

  lemma {:induction false} StepGetsOn(script: seq<Step>, s: State, t: State)
    requires Sensible(script) && Inv(script, s) && Next(script, s, t)
    ensures Left(script, t) < Left(script, s)
  {
    if CoordinatorNext(script, s) == Some(t) {
      CoordinatorGetsOn(script, s);
    } else {
      var w :| 0 <= w < |s.workers| && StepOf(s, w, t);
      WorkerGetsOn(s, w, t);
    }
  }

  lemma {:induction false} WorkerGetsOn(s: State, w: nat, t: State)
    requires w < |s.workers| && StepOf(s, w, t)
    ensures WorkersLeft(t.workers) < WorkersLeft(s.workers)
  {
    WorkersLeftUpdate(s.workers, w, t.workers[w]);
  }

  lemma {:induction false} LeftIsNat(script: seq<Step>, s: State)
    requires Inv(script, s)
    ensures Left(script, s) >= 0
  {
    if s.step < |script| {
      NatTimes(|script| - s.step - 1, 7 * |s.workers| + 3);
    }
  }

  lemma {:induction false} NatTimes(a: nat, b: nat)
    ensures a * b >= 0
  {
  }

  /** No run is longer than its first state allows. */
  lemma {:induction false} RunsAreBounded(script: seq<Step>, run: seq<State>, i: nat)
    requires Sensible(script) && IsRun(script, run) && i < |run|
    ensures i + Left(script, run[i]) <= Left(script, run[0])
  {
    if i > 0 {
      RunsAreBounded(script, run, i - 1);
      RunKeeps(script, run, i - 1);
      assert StepAt(script, run, i - 1);
      StepGetsOn(script, run[i - 1], run[i]);
    }
  }

  /** So every run that is continued as long as somebody can take a step ends, after boundedly many steps, with the
      coordinator done and every worker through with all of the work. */
  lemma {:induction false} EveryRunEnds(script: seq<Step>, run: seq<State>)
    requires Sensible(script) && IsRun(script, run)
    ensures |run| <= Left(script, run[0]) + 1
    ensures var last := run[|run| - 1];
            Stuck(script, last) ==>
              && last.step == |script| && last.acts == ActsOf(script)
              && forall w | 0 <= w < |last.workers| :: last.workers[w].finished == WorksOf(script)
  {
    var last := |run| - 1;
    RunsAreBounded(script, run, last);
    RunKeeps(script, run, last);
    LeftIsNat(script, run[last]);
    if run[last].step < |script| {
      NoDeadlock(script, run[last]);
    }
    assert script[..|script|] == script;
  }

  // ----- the two flows, with and without the -n flag -----

  /** The work and the actions of a checkpoint, phase by phase. */
  lemma {:induction false} CheckpointPhases(skip: bool)
    ensures |CheckpointScript(skip)| == if skip then 2 else 3
    ensures WorksOf(CheckpointScript(skip)) == if skip then [Dump] else [Teardown, Dump]
    ensures ActsOf(CheckpointScript(skip)) == [Freeze]
    ensures forall k | 0 <= k < |CheckpointScript(skip)| ::
              && ActsOf(CheckpointScript(skip)[..k]) == []
              && (CheckpointScript(skip)[k].Act? ==>
                   WorksOf(CheckpointScript(skip)[..k]) == if skip then [Dump] else [Teardown, Dump])
              && (CheckpointScript(skip)[k].Broadcast? ==>
                   WorksOf(CheckpointScript(skip)[..k + 1]) == if skip then [Dump]
                                                               else if k == 0 then [Teardown] else [Teardown, Dump])
  {
    var c := CheckpointScript(skip);
    assert c[..0] == [] && c[..|c|] == c;
    PhaseDone(c, 0);
    PhaseDone(c, 1);
    if !skip {
      PhaseDone(c, 2);
    }
  }

  /** In every run of a checkpoint, with or without the -n flag: when the freeze is about to happen or has
      happened, every worker has finished its teardown, if there is one, and its dump, and no handler is running;
      and when the coordinator is done the freeze has happened, once. */
  lemma {:induction false} FreezeAfterEveryDump(skip: bool, run: seq<State>, i: nat, w: nat)
    requires IsRun(CheckpointScript(skip), run) && i < |run| && w < |run[i].workers|
    ensures var about := run[i].step < |CheckpointScript(skip)| && CheckpointScript(skip)[run[i].step] == Act(Freeze);
            Freeze in run[i].acts || about ==>
              && run[i].workers[w].finished == (if skip then [Dump] else [Teardown, Dump])
              && run[i].workers[w].handler == Idle
    ensures run[i].step == |CheckpointScript(skip)| ==> run[i].acts == [Freeze]
  {
    var c := CheckpointScript(skip);
    ScriptsSensible(skip);
    CheckpointPhases(skip);
    RunKeeps(c, run, i);
    assert c[..|c|] == c;
  }

  /** Without the flag no worker dumps before every worker has finished its teardown; with it none tears down. */
  lemma {:induction false} DumpAfterEveryTeardown(skip: bool, run: seq<State>, i: nat, v: nat, w: nat)
    requires IsRun(CheckpointScript(skip), run) && i < |run| && v < |run[i].workers| && w < |run[i].workers|
    ensures Dump in run[i].workers[v].started && !skip ==> Teardown in run[i].workers[w].finished
    ensures skip ==> Teardown !in run[i].workers[w].started
  {
    var c := CheckpointScript(skip);
    ScriptsSensible(skip);
    CheckpointPhases(skip);
    HandledExactlyOnce(c, run, i, v);
    HandledExactlyOnce(c, run, i, w);
    NoOvertaking(c, run, i, v, w);
    var started, finished := run[i].workers[v].started, run[i].workers[w].finished;
    if Dump in started && !skip {
      assert |started| == 2;
      assert finished <= [Teardown, Dump] && finished[0] == Teardown;
    }
  }

  lemma {:induction false} RestoreWork(skip: bool)
    ensures RestoreScript(skip)[0] == Act(Unfreeze)
    ensures WorksOf(RestoreScript(skip)) == if skip then [Restore] else [Restore, Export, Import]
    ensures ActsOf(RestoreScript(skip)) == if skip then [Unfreeze] else [Unfreeze, Exchange]
  {
    var r := RestoreScript(skip);
    assert r[..0] == [] && r[..|r|] == r;
    PhaseDone(r, 0);
    PhaseDone(r, 1);
    if !skip {
      RestoreSteps();
      PhaseDone(r, 2);
      PhaseDone(r, 3);
      PhaseDone(r, 4);
    }
  }

  /** In every run of a restore, with or without the flag: no worker restores before the unfreeze; with the flag
      nobody exports, imports or exchanges; and when the coordinator is done, all there was to do is done. */
  lemma {:induction false} RestoreAfterUnfreeze(skip: bool, run: seq<State>, i: nat, w: nat)
    requires IsRun(RestoreScript(skip), run) && i < |run| && w < |run[i].workers|
    ensures run[i].workers[w].started != [] ==> Unfreeze in run[i].acts
    ensures skip ==> run[i].workers[w].started <= [Restore] && run[i].acts <= [Unfreeze]
    ensures run[i].step == |RestoreScript(skip)| ==>
              && run[i].workers[w].finished == (if skip then [Restore] else [Restore, Export, Import])
              && run[i].acts == (if skip then [Unfreeze] else [Unfreeze, Exchange])
  {
    var r := RestoreScript(skip);
    ScriptsSensible(skip);
    RestoreWork(skip);
    RunKeeps(r, run, i);
    HandledExactlyOnce(r, run, i, w);
    assert r[..|r|] == r && r[..0] == [];
    ActsGrow(r, run[i].step, |r|);
    if run[i].step > 0 {
      ActsGrow(r, 1, run[i].step);
      PhaseDone(r, 0);
      assert ActsOf(r[..1])[0] == Unfreeze;
    }
  }

  // ----- the blocks in shared memory -----

  /** A worker's two blocks in shared memory, and the peer block its import handler last read. Neither
      block need be empty at first. */
  datatype Shm = Shm(mine: Block, peer: Block, read: Block)

  ghost function Mine(shm: seq<Shm>): (blocks: seq<Block>)
    ensures |blocks| == |shm| && forall w | 0 <= w < |shm| :: blocks[w] == shm[w].mine
  {
    seq(|shm|, w requires 0 <= w < |shm| => shm[w].mine)
  }

  ghost predicate Newly(before: seq<Work>, after: seq<Work>, work: Work) {
    after == before + [work]
  }

  /** What a step of worker w does to its shared memory: an export handler ends with its block
      published, an import handler begins by reading its peer block. */
  ghost function WorkerEffect(s: Worker, t: Worker, m: Shm, published: Block): Shm {
    if Newly(s.finished, t.finished, Export) then m.(mine := published)
    else if Newly(s.started, t.started, Import) then m.(read := m.peer)
    else m
  }

  /** What any step does to all of shared memory. `published` is what each worker has to publish. */
  ghost function Effect(s: State, t: State, shm: seq<Shm>, published: seq<Block>): (shm': seq<Shm>)
    requires |shm| == |published| == |s.workers| == |t.workers|
    ensures |shm'| == |shm|
  {
    if t.acts == s.acts + [Exchange]
    then seq(|shm|, w requires 0 <= w < |shm| => shm[w].(peer := PeerBlock(Mine(shm), w)))
    else seq(|shm|, w requires 0 <= w < |shm| => WorkerEffect(s.workers[w], t.workers[w], shm[w], published[w]))
  }

  ghost predicate SameSize(run: seq<State>, n: nat) {
    forall i | 0 <= i < |run| :: |run[i].workers| == n
  }

  /** Shared memory after the first i steps of a run. */
  ghost function ShmAfter(run: seq<State>, shm: seq<Shm>, published: seq<Block>, i: nat): (r: seq<Shm>)
    requires SameSize(run, |shm|) && |published| == |shm| && i < |run|
    ensures |r| == |shm|
  {
    if i == 0 then shm else Effect(run[i - 1], run[i], ShmAfter(run, shm, published, i - 1), published)
  }

  /** What is where as soon as it has to be there. */
  ghost predicate Arrived(s: State, shm: seq<Shm>, published: seq<Block>) {
    && |shm| == |published| == |s.workers|
    && (forall w | 0 <= w < |shm| && Export in s.workers[w].finished :: shm[w].mine == published[w])
    && (Exchange in s.acts ==> forall w | 0 <= w < |shm| :: shm[w].peer == PeerBlock(published, w))
    && (forall w | 0 <= w < |shm| && Import in s.workers[w].started :: shm[w].read == PeerBlock(published, w))
  }

  lemma {:induction false} ExchangeIsStepThree(s: State, t: State)
    requires Next(RestoreScript(false), s, t) && t.acts == s.acts + [Exchange]
    ensures s.step == 3 && t.workers == s.workers
  {
    RestoreSteps();
    assert CoordinatorNext(RestoreScript(false), s) == Some(t);
    assert t.acts[|s.acts|] == Exchange;
  }

  /** The coordinator's exchange finds every block published. */
  lemma {:induction false} ExchangeDelivers(run: seq<State>, i: nat, shm: seq<Shm>, published: seq<Block>)
    requires IsRun(RestoreScript(false), run) && i + 1 < |run| && SameSize(run, |shm|)
    requires Arrived(run[i], shm, published) && run[i + 1].acts == run[i].acts + [Exchange]
    ensures Arrived(run[i + 1], Effect(run[i], run[i + 1], shm, published), published)
  {
    var r := RestoreScript(false);
    assert StepAt(r, run, i);
    RestoreSteps();
    RestorePhase3();
    ScriptsSensible(false);
    ExchangeIsStepThree(run[i], run[i + 1]);
    forall w | 0 <= w < |shm|
      ensures shm[w].mine == published[w]
    {
      ActionsAlone(r, run, i, w);
    }
    assert Mine(shm) == published;
  }

  /** One worker: `expected` is what its peer block has to be when it imports. */
  lemma {:induction false} DeliversOne(s: Worker, t: Worker, m: Shm, published: Block, expected: Block)
    requires OneMore(s, t)
    requires Export in s.finished ==> m.mine == published
    requires Import in s.started ==> m.read == expected
    requires Import in t.started ==> m.peer == expected
    ensures var m' := WorkerEffect(s, t, m, published);
            && m'.peer == m.peer && (Export in t.finished ==>
                 m'.mine == published) && (Import in t.started ==> m'.read == expected)
  {
  }

  /** Only the coordinator's exchange adds an exchange. */
  lemma {:induction false} NoOtherExchange(s: State, t: State)
    requires Next(RestoreScript(false), s, t) && t.acts != s.acts + [Exchange]
    ensures Exchange in t.acts <==> Exchange in s.acts
  {
  }

  lemma {:induction false} ImportAfterExchange(run: seq<State>, i: nat, w: nat)
    requires IsRun(RestoreScript(false), run) && i < |run| && w < |run[i].workers|
             && Import in run[i].workers[w].started
    ensures Exchange in run[i].acts
  {
    ImportAfterEveryExport(run, i, w, w);
    assert run[i].acts[1] == Exchange;
  }

  /** A handler publishes its own block, and reads only after the exchange. */
  lemma {:induction false} HandlerDelivers(run: seq<State>, i: nat, shm: seq<Shm>, published: seq<Block>)
    requires IsRun(RestoreScript(false), run) && i + 1 < |run| && SameSize(run, |shm|)
    requires Arrived(run[i], shm, published) && run[i + 1].acts != run[i].acts + [Exchange]
    ensures Arrived(run[i + 1], Effect(run[i], run[i + 1], shm, published), published)
  {
    var s, t := run[i], run[i + 1];
    assert StepAt(RestoreScript(false), run, i);
    StepKinds(RestoreScript(false), s, t);
    NoOtherExchange(s, t);
    var after := Effect(s, t, shm, published);
    forall w | 0 <= w < |shm|
      ensures after[w].peer == shm[w].peer
      ensures Export in t.workers[w].finished ==> after[w].mine == published[w]
      ensures Import in t.workers[w].started ==> after[w].read == PeerBlock(published, w)
    {
      if Import in t.workers[w].started {
        ImportAfterExchange(run, i + 1, w);
      }
      DeliversOne(s.workers[w], t.workers[w], shm[w], published[w], PeerBlock(published, w));
    }
  }

  /** A step adds at most one entry to one of the logs. */
  lemma {:induction false} StepKinds(script: seq<Step>, s: State, t: State)
    requires Next(script, s, t)
    ensures |t.workers| == |s.workers|
    ensures forall w | 0 <= w < |s.workers| :: OneMore(s.workers[w], t.workers[w])
    ensures t.acts == s.acts || ((exists a :: t.acts == s.acts + [a]) && forall w | 0 <= w < |s.workers| ::
            SameLogs(s.workers[w], t.workers[w]))
  {
    if CoordinatorNext(script, s) != Some(t) {
      var w :| 0 <= w < |s.workers| && StepOf(s, w, t);
      WorkerStep(s.workers[w]);
    }
  }

  lemma {:induction false} WorkerStep(w: Worker)
    requires WorkerNext(w).Some?
    ensures OneMore(w, WorkerNext(w).value)
  {
    match w.handler
    case Entered(sig) => assert Newly(w.started, WorkerNext(w).value.started, Dispatch(sig, w.mail));
    case Working(work) => assert Newly(w.finished, WorkerNext(w).value.finished, work);
    case _ =>
  }

  ghost predicate SameLogs(s: Worker, t: Worker) {
    s.started == t.started && s.finished == t.finished
  }

  ghost predicate OneMore(s: Worker, t: Worker) {
    || SameLogs(s, t)
    || (s.finished == t.finished && exists work :: Newly(s.started, t.started, work))
    || (s.started == t.started && exists work :: Newly(s.finished, t.finished, work))
  }

  lemma {:induction false} StepDelivers(run: seq<State>, i: nat, shm: seq<Shm>, published: seq<Block>)
    requires IsRun(RestoreScript(false), run) && 0 < i < |run| && SameSize(run, |shm|)
             && Arrived(run[i - 1], shm, published)
    ensures Arrived(run[i], Effect(run[i - 1], run[i], shm, published), published)
  {
    if run[i].acts == run[i - 1].acts + [Exchange] {
      ExchangeDelivers(run, i - 1, shm, published);
    } else {
      HandlerDelivers(run, i - 1, shm, published);
    }
  }

  lemma {:induction false} FirstArrived(script: seq<Step>, s: State, shm: seq<Shm>, published: seq<Block>)
    requires Init(script, s) && |shm| == |published| == |s.workers|
    ensures Arrived(s, shm, published)
  {
  }

  lemma {:induction false} RunDelivers(run: seq<State>, shm: seq<Shm>, published: seq<Block>, i: nat)
    requires IsRun(RestoreScript(false), run) && i < |run| && SameSize(run, |shm|) && |published| == |shm|
    ensures Arrived(run[i], ShmAfter(run, shm, published, i), published)
  {
    if i == 0 {
      FirstArrived(RestoreScript(false), run[0], shm, published);
    } else {
      RunDelivers(run, shm, published, i - 1);
      StepDelivers(run, i, ShmAfter(run, shm, published, i - 1), published);
    }
  }

  /** In every run of a restore, whatever shared memory held before: a worker that has started to import
      has read the block the exchange makes of what all the others have published in this restore. */
  lemma {:induction false} ImportsReadWhatWasPublished(run: seq<State>, shm: seq<Shm>, published: seq<Block>, i: nat,
                                                       w: nat)
    requires IsRun(RestoreScript(false), run) && i < |run| && |published| == |shm| == |run[0].workers|
    requires w < |run[i].workers| && Import in run[i].workers[w].started
    ensures SameSize(run, |shm|) && w < |shm|
    ensures ShmAfter(run, shm, published, i)[w].read == PeerBlock(published, w)
  {
    ScriptsSensible(false);
    forall k | 0 <= k < |run|
      ensures |run[k].workers| == |shm|
    {
      RunKeeps(RestoreScript(false), run, k);
    }
    RunDelivers(run, shm, published, i);
  }
}

/** Contending coordinator processes: election by an exclusive lease, serving,
    orderly shutdown, and crashes at any point.

    An owner is one winner of the election. Its token is its own identity, since
    tokens are digests of process, time, sequence number and endpoint. */
module CoordinatorOwnership {
  import opened Basics
  import D = Dispatcher

  type Owner = nat

  /** The order of start-up and of shutdown in the owner's serving thread. */
  datatype Phase =
    | Elected
    | Published
    | Starting
    | Serving
    | Stopping
    | HandlersJoined
    | WorkerJoined
    | RefreshJoined
    | MaintenanceJoined
    | StateChecked(mine: bool)
    | StateRemoved
    | Unwound(workerLives: bool)
    | Gone

  function Rank(p: Phase): nat {
    match p
    case Elected => 0
    case Published => 1
    case Starting => 2
    case Serving => 3
    case Stopping => 4
    case HandlersJoined => 5
    case WorkerJoined => 6
    case RefreshJoined => 7
    case MaintenanceJoined => 8
    case StateChecked(_) => 9
    case StateRemoved => 10
    case Unwound(_) => 11
    case Gone => 12
  }

  /** The phases in which a panic may unwind the serving thread. */
  type Panics = Phase -> bool

  /** The worker thread has been spawned and not yet joined. */
  predicate HasWorker(ph: Phase) {
    ph.Serving? || ph.Stopping? || ph.HandlersJoined?
  }

  /** The serving thread never unwinds while its worker lives. */
  ghost predicate Harmless(panics: Panics) {
    forall ph :: HasWorker(ph) ==> !panics(ph)
  }

  datatype OwnerState = OwnerState(
    phase: Phase,
    dispatch: D.System,
    handlers: nat,
    refreshLive: bool,
    refreshBusy: bool,
    maintenanceLive: bool)

  /** `lease` is the exclusive lock, `file` the token in the state file. */
  datatype System = System(
    lease: Option<Owner>,
    file: Option<Owner>,
    owners: map<Owner, OwnerState>)

  datatype Step =
    | AcquireStep
    | PublishStep
    | FailStartStep
    | SpawnStep
    | StartRefreshStep
    | StartMaintenanceStep
    | ServeStep
    | WorkerSpawnFails
    | AcceptStep
    | HandlerEndsStep
    | DispatchStep(step: D.Step)
    | RefreshBeginsStep
    | RefreshEndsStep
    | StopStep
    | JoinHandlersStep
    | JoinWorkerStep
    | JoinRefreshStep
    | JoinMaintenanceStep
    | CheckStateStep(mine: bool)
    | RemoveStateStep(removed: bool)
    | ReleaseStep
    | UnwindStep
    | CrashStep

  /** Which thread of the owner may take a dispatcher step, and when. */
  predicate DispatchAllowed(o: OwnerState, step: D.Step) {
    D.Enabled(o.dispatch, step) &&
    match step
    case TrySubmitStep(_) => o.handlers > 0
    case TryAcquireStep => o.maintenanceLive
    case DropPermitStep => o.maintenanceLive
    case StopStep => Rank(o.phase) >= 2
    case _ => HasWorker(o.phase) || o.phase == Unwound(true)
  }

  predicate Enabled(s: System, o: Owner, step: Step, panics: Panics) {
    if step.AcquireStep? then o !in s.owners && s.lease.None?
    else
      o in s.owners && var me := s.owners[o];
      match step
      case AcquireStep => false
      case PublishStep => me.phase.Elected?
      case FailStartStep => me.phase.Elected? || me.phase.Published?
      case SpawnStep => me.phase.Published?
      case StartRefreshStep => me.phase.Starting?
      case StartMaintenanceStep => me.phase.Starting?
      case ServeStep => me.phase.Starting?
      case WorkerSpawnFails => me.phase.Starting?
      case AcceptStep => me.phase.Serving?
      case HandlerEndsStep => me.handlers > 0
      case DispatchStep(step) => !me.phase.Gone? && DispatchAllowed(me, step)
      case RefreshBeginsStep => me.refreshLive
      case RefreshEndsStep => me.refreshBusy
      case StopStep => me.phase.Serving?
      case JoinHandlersStep => me.phase.Stopping? && me.handlers == 0
      case JoinWorkerStep => me.phase.HandlersJoined? && me.dispatch.worker.Exited?
      case JoinRefreshStep => me.phase.WorkerJoined? && !me.refreshBusy
      case JoinMaintenanceStep => me.phase.RefreshJoined? && me.dispatch.permits == 0
      // The read may fail, which counts as not mine.
      case CheckStateStep(mine) => me.phase.MaintenanceJoined? && (mine ==> s.file == Some(o))
      // The unlink is ignored when it fails.
      case RemoveStateStep(removed) => me.phase.StateChecked? && (removed ==> me.phase.mine)
      case ReleaseStep => me.phase.StateRemoved?
      // Unwinding drops the refresh and maintenance runtimes, which joins them, and the
      // lease; the handles of handlers and worker are dropped without joining.
      case UnwindStep => 2 <= Rank(me.phase) <= 10 && panics(me.phase) && !me.refreshBusy && me.dispatch.permits == 0
      case CrashStep => !me.phase.Gone?
  }

  function Fresh(): OwnerState {
    OwnerState(Elected, D.START, 0, false, false, false)
  }

  /** What is left of an owner whose process ended. */
  function Dead(o: OwnerState): OwnerState {
    OwnerState(Gone, o.dispatch.(worker := D.Exited, permits := 0), 0, false, false, false)
  }

  function OwnerAfter(me: OwnerState, step: Step): OwnerState {
    match step
    case AcquireStep => me
    case PublishStep => me.(phase := Published)
    case FailStartStep => Dead(me)
    case SpawnStep => me.(phase := Starting)
    case StartRefreshStep => me.(refreshLive := true)
    case StartMaintenanceStep => me.(maintenanceLive := true)
    case ServeStep => me.(phase := Serving)
    case WorkerSpawnFails =>
      me.(phase := WorkerJoined, dispatch := me.dispatch.(slot := D.Stop(me.dispatch.slot), worker := D.Exited))
    case AcceptStep => me.(handlers := me.handlers + 1)
    case HandlerEndsStep => if me.handlers > 0 then me.(handlers := me.handlers - 1) else me
    case DispatchStep(step) => if D.Enabled(me.dispatch, step) then me.(dispatch := D.Do(me.dispatch, step)) else me
    case RefreshBeginsStep => me.(refreshBusy := true)
    case RefreshEndsStep => me.(refreshBusy := false)
    case StopStep => me.(phase := Stopping, dispatch := D.Do(me.dispatch, D.StopStep))
    case JoinHandlersStep => me.(phase := HandlersJoined)
    case JoinWorkerStep => me.(phase := WorkerJoined)
    case JoinRefreshStep => me.(phase := RefreshJoined, refreshLive := false)
    case JoinMaintenanceStep => me.(phase := MaintenanceJoined, maintenanceLive := false)
    case CheckStateStep(mine) => me.(phase := StateChecked(mine))
    case RemoveStateStep(_) => me.(phase := StateRemoved)
    case ReleaseStep => me.(phase := Gone)
    case UnwindStep => me.(phase := Unwound(HasWorker(me.phase)), refreshLive := false, maintenanceLive := false)
    case CrashStep => Dead(me)
  }

  function Do(s: System, o: Owner, step: Step, panics: Panics): System
    requires Enabled(s, o, step, panics)
  {
    var me := if o in s.owners then OwnerAfter(s.owners[o], step) else Fresh();
    var lease := if step.AcquireStep? then Some(o)
                 else if Rank(me.phase) >= 11 && s.lease == Some(o) then None
                 else s.lease;
    var file := if step.PublishStep? then Some(o)
                else if step.RemoveStateStep? && step.removed then None
                else s.file;
    System(lease, file, s.owners[o := me])
  }

  /** Any leftover state file may be there at the beginning. */
  predicate Init(s: System) {
    s.lease.None? && s.owners == map[]
  }

  ghost predicate Steps(s: System, t: System, panics: Panics) {
    exists o: Owner, step: Step :: Enabled(s, o, step, panics) && t == Do(s, o, step, panics)
  }

  ghost predicate Run(run: seq<System>, panics: Panics) {
    && run != [] && Init(run[0])
    && forall i :: 0 <= i < |run| - 1 ==> Steps(run[i], run[i + 1], panics)
  }

  // ------------------------------------------------------------------- invariant

  /** An operation, a maintenance pass or a refresh is under way. */
  predicate Working(o: OwnerState) {
    o.dispatch.worker.Executing? || o.dispatch.permits > 0 || o.refreshBusy
  }

  predicate IsWorking(s: System, o: Owner) {
    o in s.owners && Working(s.owners[o])
  }

  /** What has been joined by the phase the owner has reached. */
  predicate OwnerInv(o: OwnerState) {
    && (!o.phase.Gone? ==> D.Inv(o.dispatch))
    && (o.refreshBusy ==> o.refreshLive)
    && (o.dispatch.permits > 0 ==> o.maintenanceLive)
    && if o.phase.Unwound? then UnwoundInv(o) else JoinedInv(o)
  }

  /** What an unwound serving thread leaves behind. */
  predicate UnwoundInv(o: OwnerState) {
    && !o.refreshLive && !o.maintenanceLive
    && (o.phase == Unwound(false) ==> o.handlers == 0 && !o.dispatch.worker.Executing?)
  }

  predicate JoinedInv(o: OwnerState) {
    && (Rank(o.phase) >= 5 ==> o.handlers == 0)
    && (Rank(o.phase) >= 6 ==> o.dispatch.worker.Exited?)
    && (Rank(o.phase) < 3 ==> o.handlers == 0 && o.dispatch.accepted == [] && o.dispatch.worker == D.Looking)
    && (Rank(o.phase) >= 7 ==> !o.refreshLive)
    && (Rank(o.phase) >= 8 ==> !o.maintenanceLive && o.dispatch.permits == 0)
    && (6 <= Rank(o.phase) < 11 ==> o.dispatch.taken == o.dispatch.accepted)
  }

  /** Exactly the owners that have neither gone nor unwound hold the lease. */
  predicate LeaseInv(s: System) {
    && (forall o :: o in s.owners && Rank(s.owners[o].phase) < 11 ==> s.lease == Some(o))
    && (s.lease.Some? ==> s.lease.value in s.owners && Rank(s.owners[s.lease.value].phase) < 11)
  }

  predicate NamedInFile(ph: Phase) {
    1 <= Rank(ph) <= 8 || ph == StateChecked(true)
  }

  predicate FileInv(s: System) {
    s.lease.Some? && s.lease.value in s.owners && NamedInFile(s.owners[s.lease.value].phase) ==> s.file == s.lease
  }

  predicate Inv(s: System) {
    (forall o :: o in s.owners ==> OwnerInv(s.owners[o])) && LeaseInv(s) && FileInv(s)
  }

  lemma DispatchKeepsOwnerInv(me: OwnerState, step: D.Step)
    requires OwnerInv(me) && !me.phase.Gone? && DispatchAllowed(me, step)
    ensures OwnerInv(OwnerAfter(me, DispatchStep(step)))
  {
    D.StepKeepsInv(me.dispatch, step);
  }

  lemma StopKeepsOwnerInv(me: OwnerState)
    requires OwnerInv(me) && me.phase.Serving?
    ensures OwnerInv(OwnerAfter(me, StopStep))
  {
    D.StepKeepsInv(me.dispatch, D.StopStep);
  }

  lemma OwnerStepKeepsInv(s: System, o: Owner, step: Step, panics: Panics)
    requires o in s.owners && OwnerInv(s.owners[o]) && Enabled(s, o, step, panics)
    ensures OwnerInv(OwnerAfter(s.owners[o], step))
  {
    hide D.Do;
    var me := s.owners[o];
    match step
    case DispatchStep(d) => DispatchKeepsOwnerInv(me, d);
    case StopStep => StopKeepsOwnerInv(me);
    case _ =>
  }

  lemma StepKeepsLease(s: System, o: Owner, step: Step, panics: Panics)
    requires LeaseInv(s) && Enabled(s, o, step, panics)
    ensures LeaseInv(Do(s, o, step, panics))
  {
    hide D.Do, D.Enabled, D.Stop;
  }

  lemma StepKeepsFile(s: System, o: Owner, step: Step, panics: Panics)
    requires LeaseInv(s) && FileInv(s) && Enabled(s, o, step, panics)
    ensures FileInv(Do(s, o, step, panics))
  {
    if o in s.owners { PhaseMoves(s, o, step, panics); }
    hide OwnerAfter, DispatchAllowed, Fresh, D.Do, D.Enabled, D.Stop;
    FreshIsElected();
  }

  lemma FreshIsElected()
    ensures Fresh().phase == Elected
  {}

  /** Which phases a step leads to, as far as the state file is concerned. */
  lemma PhaseMoves(s: System, o: Owner, step: Step, panics: Panics)
    requires o in s.owners && Enabled(s, o, step, panics)
    ensures var ph, next := s.owners[o].phase, OwnerAfter(s.owners[o], step).phase;
            && (NamedInFile(next) ==> NamedInFile(ph) || step.PublishStep? || (step.CheckStateStep? && s.file == Some(o)))
            && (step.RemoveStateStep? ==> !NamedInFile(next))
            && (step.PublishStep? ==> ph.Elected?)
  {
    hide DispatchAllowed, D.Do, D.Enabled, D.Stop;
  }

  lemma StepKeepsInv(s: System, o: Owner, step: Step, panics: Panics)
    requires Inv(s) && Enabled(s, o, step, panics)
    ensures Inv(Do(s, o, step, panics))
  {
    hide OwnerInv, LeaseInv, FileInv, OwnerAfter, D.Do, D.Enabled, D.Stop;
    StepKeepsLease(s, o, step, panics);
    StepKeepsFile(s, o, step, panics);
    if o in s.owners { OwnerStepKeepsInv(s, o, step, panics); }
    else { FreshOwnerInv(); }
  }

  lemma FreshOwnerInv()
    ensures OwnerInv(Fresh())
  {}

  lemma {:induction false} RunKeepsInv(run: seq<System>, panics: Panics, i: nat)
    requires Run(run, panics) && i < |run|
    ensures Inv(run[i])
  {
    hide Inv, Enabled, Do;
    if i == 0 {
      InitIsInv(run[0]);
    } else {
      RunKeepsInv(run, panics, i - 1);
      assert Steps(run[i - 1], run[i - 1 + 1], panics);
      var o, step :| Enabled(run[i - 1], o, step, panics) && run[i] == Do(run[i - 1], o, step, panics);
      StepKeepsInv(run[i - 1], o, step, panics);
    }
  }

  lemma InitIsInv(s: System)
    requires Init(s)
    ensures Inv(s)
  {}

  // ---------------------------------------------------------------- main results

  /** In every run without a harmful panic, work happens only under the lease, so no two
      owners ever work at the same time; and inside the owner the slot has one holder. */
  lemma WorkNeverOverlaps(run: seq<System>, panics: Panics, i: nat, a: Owner, b: Owner)
    requires Run(run, panics) && Harmless(panics) && i < |run| && a in run[i].owners && b in run[i].owners
    ensures Working(run[i].owners[a]) ==> run[i].lease == Some(a)
    ensures Working(run[i].owners[a]) && Working(run[i].owners[b]) ==> a == b
    ensures run[i].owners[a].dispatch.worker.Executing? ==> run[i].owners[a].dispatch.permits == 0
  {
    RunKeepsInv(run, panics, i);
    NoWorkerIsAbandoned(run, panics, i);
    assert OwnerInv(run[i].owners[a]) && OwnerInv(run[i].owners[b]);
  }

  predicate NoneAbandoned(s: System) {
    forall o :: o in s.owners ==> s.owners[o].phase != Unwound(true)
  }

  lemma StepAbandonsNone(s: System, o: Owner, step: Step, panics: Panics)
    requires NoneAbandoned(s) && Harmless(panics) && Enabled(s, o, step, panics)
    ensures NoneAbandoned(Do(s, o, step, panics))
  {
    hide D.Do, D.Enabled, D.Stop, Rank, DispatchAllowed;
  }

  lemma {:induction false} NoWorkerIsAbandoned(run: seq<System>, panics: Panics, i: nat)
    requires Run(run, panics) && Harmless(panics) && i < |run|
    ensures NoneAbandoned(run[i])
    decreases i
  {
    hide Enabled, Do;
    if i > 0 {
      assert Steps(run[i - 1], run[i - 1 + 1], panics);
      var o, step :| Enabled(run[i - 1], o, step, panics) && run[i] == Do(run[i - 1], o, step, panics);
      NoWorkerIsAbandoned(run, panics, i - 1);
      StepAbandonsNone(run[i - 1], o, step, panics);
    }
  }

  /** The state file is only ever removed by the owner whose token it holds, while
      that owner still has the lease: never a successor's. */
  lemma OnlyOwnStateIsRemoved(run: seq<System>, panics: Panics, i: nat)
    requires Run(run, panics) && i + 1 < |run| && run[i].file.Some? && run[i + 1].file.None?
    ensures var o := run[i].file.value;
            o in run[i].owners && run[i].lease == Some(o) && run[i].owners[o].phase == StateChecked(true)
  {
    hide OwnerInv, OwnerAfter;
    RunKeepsInv(run, panics, i);
    assert Steps(run[i], run[i + 1], panics);
    var o, step :| Enabled(run[i], o, step, panics) && run[i + 1] == Do(run[i], o, step, panics);
  }

  /** A lease freed in order, rather than by a crash or a failed start, leaves
      nothing running and no accepted job untaken. */
  lemma OrderlyRelease(run: seq<System>, panics: Panics, i: nat, o: Owner)
    requires Run(run, panics) && i < |run| && o in run[i].owners && run[i].owners[o].phase.StateRemoved?
    ensures !Working(run[i].owners[o])
    ensures run[i].owners[o].handlers == 0
    ensures !run[i].owners[o].refreshLive && !run[i].owners[o].maintenanceLive
    ensures run[i].owners[o].dispatch.taken == run[i].owners[o].dispatch.accepted
  {
    RunKeepsInv(run, panics, i);
    assert OwnerInv(run[i].owners[o]);
  }

  /** While an owner serves, the state file names that owner and no other. */
  lemma StateFileNamesTheServer(run: seq<System>, panics: Panics, i: nat, o: Owner)
    requires Run(run, panics) && i < |run| && o in run[i].owners && 1 <= Rank(run[i].owners[o].phase) <= 8
    ensures run[i].file == Some(o) && run[i].lease == Some(o)
  {
    RunKeepsInv(run, panics, i);
  }

  // ------------------------------------------------------- what a harmful panic costs

  function Last(run: seq<System>): System
    requires run != []
  {
    run[|run| - 1]
  }

  lemma Extend(run: seq<System>, panics: Panics, o: Owner, step: Step) returns (longer: seq<System>)
    requires Run(run, panics) && run != [] && Enabled(Last(run), o, step, panics)
    ensures Run(longer, panics) && longer != [] && Last(longer) == Do(Last(run), o, step, panics)
  {
    hide Enabled, Do, Init;
    longer := run + [Do(Last(run), o, step, panics)];
    forall i | 0 <= i < |longer| - 1 ensures Steps(longer[i], longer[i + 1], panics) {
      if i < |run| - 1 {
        assert Steps(run[i], run[i + 1], panics);
      } else {
        assert longer[i] == Last(run) && longer[i + 1] == Do(Last(run), o, step, panics);
      }
    }
  }

  /** An owner serving one request, which its worker executes. */
  function Busy(ph: Phase, stopping: bool): OwnerState {
    OwnerState(ph, D.System(D.Slot(None, true, stopping), D.Executing(0), 0, [0], [0]), if ph.HandlersJoined? then 0 else 1, false, false, false)
  }

  lemma Serves(run: seq<System>, panics: Panics, o: Owner) returns (longer: seq<System>)
    requires Run(run, panics) && run != [] && Last(run).lease.None? && o !in Last(run).owners
    ensures Run(longer, panics) && longer != []
    ensures Last(longer) == System(Some(o), Some(o), Last(run).owners[o := Fresh().(phase := Serving)])
  {
    hide Run;
    longer := Extend(run, panics, o, AcquireStep);
    longer := Extend(longer, panics, o, PublishStep);
    longer := Extend(longer, panics, o, SpawnStep);
    longer := Extend(longer, panics, o, ServeStep);
    assert Last(longer).owners == Last(run).owners[o := Fresh().(phase := Serving)];
  }

  lemma Submits(run: seq<System>, panics: Panics, o: Owner) returns (longer: seq<System>)
    requires Run(run, panics) && run != [] && Last(run).lease == Some(o) && o in Last(run).owners && Last(run).owners[o] == Fresh().(phase := Serving)
    ensures Run(longer, panics) && longer != []
    ensures Last(longer) == Last(run).(owners := Last(run).owners[o := Queued()])
  {
    hide Run;
    longer := Extend(run, panics, o, AcceptStep);
    longer := Extend(longer, panics, o, DispatchStep(D.TrySubmitStep(0)));
    assert [] + [0] == [0];
    assert Last(longer).owners[o] == Queued();
    assert Last(longer).owners == Last(run).owners[o := Queued()];
  }

  function Queued(): OwnerState {
    OwnerState(Serving, D.System(D.Slot(Some(0), true, false), D.Looking, 0, [0], []), 1, false, false, false)
  }

  lemma Executes(run: seq<System>, panics: Panics, o: Owner) returns (longer: seq<System>)
    requires Run(run, panics) && run != [] && Last(run).lease == Some(o) && o in Last(run).owners && Last(run).owners[o] == Fresh().(phase := Serving)
    ensures Run(longer, panics) && longer != []
    ensures Last(longer) == Last(run).(owners := Last(run).owners[o := Busy(Serving, false)])
  {
    hide Run, Fresh;
    longer := Submits(run, panics, o);
    longer := Extend(longer, panics, o, DispatchStep(D.LookStep));
    assert [] + [0] == [0];
    assert Last(longer).owners[o] == Busy(Serving, false);
    assert Last(longer).owners == Last(run).owners[o := Busy(Serving, false)];
  }

  lemma Stops(run: seq<System>, panics: Panics, o: Owner) returns (longer: seq<System>)
    requires Run(run, panics) && run != []
    requires Last(run).lease == Some(o) && o in Last(run).owners && Last(run).owners[o] == Busy(Serving, false)
    ensures Run(longer, panics) && longer != []
    ensures Last(longer) == Last(run).(owners := Last(run).owners[o := Busy(Stopping, true)])
  {
    hide Run;
    longer := Extend(run, panics, o, StopStep);
    assert Last(longer).owners == Last(run).owners[o := Busy(Stopping, true)];
  }

  lemma JoinsHandlers(run: seq<System>, panics: Panics, o: Owner) returns (longer: seq<System>)
    requires Run(run, panics) && run != []
    requires Last(run).lease == Some(o) && o in Last(run).owners && Last(run).owners[o] == Busy(Stopping, true)
    ensures Run(longer, panics) && longer != []
    ensures Last(longer) == Last(run).(owners := Last(run).owners[o := Busy(HandlersJoined, true)])
  {
    hide Run;
    longer := Extend(run, panics, o, HandlerEndsStep);
    longer := Extend(longer, panics, o, JoinHandlersStep);
    assert Last(longer).owners[o] == Busy(HandlersJoined, true);
    assert Last(longer).owners == Last(run).owners[o := Busy(HandlersJoined, true)];
  }

  /** From serving on, the owner can be in any phase in which its worker lives. */
  lemma MovesOn(run: seq<System>, panics: Panics, o: Owner, ph: Phase) returns (longer: seq<System>)
    requires Run(run, panics) && run != [] && HasWorker(ph)
    requires Last(run).lease == Some(o) && o in Last(run).owners && Last(run).owners[o] == Busy(Serving, false)
    ensures Run(longer, panics) && longer != []
    ensures Last(longer) == Last(run).(owners := Last(run).owners[o := Busy(ph, !ph.Serving?)])
  {
    hide Run, Last, Busy;
    longer := run;
    if ph.Serving? {
      assert Last(run).owners == Last(run).owners[o := Busy(ph, false)];
    } else {
      longer := Stops(run, panics, o);
      if ph.HandlersJoined? {
        longer := JoinsHandlers(longer, panics, o);
        assert Last(longer).owners == Last(run).owners[o := Busy(ph, true)];
      }
    }
  }

  lemma Unwinds(run: seq<System>, panics: Panics, o: Owner, ph: Phase) returns (longer: seq<System>)
    requires Run(run, panics) && run != [] && HasWorker(ph) && panics(ph)
    requires Last(run).lease == Some(o) && o in Last(run).owners && Last(run).owners[o] == Busy(ph, !ph.Serving?)
    ensures Run(longer, panics) && longer != []
    ensures Last(longer) == Last(run).(lease := None, owners := Last(run).owners[o := Busy(ph, !ph.Serving?).(phase := Unwound(true))])
  {
    hide Run;
    longer := Extend(run, panics, o, UnwindStep);
  }

  /** A panic while the worker lives lets a successor work beside it. */
  lemma HarmfulPanicOverlaps(panics: Panics, ph: Phase) returns (run: seq<System>)
    requires HasWorker(ph) && panics(ph)
    ensures Run(run, panics) && run != [] && var s := Last(run);
            0 in s.owners && 1 in s.owners && Working(s.owners[0]) && Working(s.owners[1])
  {
    hide Enabled, Do;
    run := [System(None, None, map[])];
    run := Serves(run, panics, 0);
    run := Executes(run, panics, 0);
    run := MovesOn(run, panics, 0, ph);
    run := Unwinds(run, panics, 0, ph);
    run := Serves(run, panics, 1);
    run := Executes(run, panics, 1);
  }

  /** Work never overlaps, in any run, exactly when the serving thread never unwinds while
      its worker lives. */
  lemma NoOverlapExactlyWithoutHarmfulPanics(panics: Panics)
    ensures (forall run: seq<System>, i: nat, a: Owner, b: Owner ::
               Run(run, panics) && i < |run| && IsWorking(run[i], a) && IsWorking(run[i], b) ==> a == b)
            <==> Harmless(panics)
  {
    hide Run, Working;
    if Harmless(panics) {
      forall run: seq<System>, i: nat, a: Owner, b: Owner |
        Run(run, panics) && i < |run| && IsWorking(run[i], a) && IsWorking(run[i], b) ensures a == b {
        WorkNeverOverlaps(run, panics, i, a, b);
      }
    } else {
      var ph :| HasWorker(ph) && panics(ph);
      var run := HarmfulPanicOverlaps(panics, ph);
      assert IsWorking(run[|run| - 1], 0) && IsWorking(run[|run| - 1], 1);
    }
  }
}

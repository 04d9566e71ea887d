/** The coordinator's execution slot, shared by queued operations and by
    maintenance. One mutex guards it; one worker thread takes jobs from it. */
module Dispatcher {
  import opened Basics

  type Job = nat

  /** The mutex-guarded fields. */
  datatype Slot = Slot(job: Option<Job>, active: bool, stopping: bool)

  datatype Taken = Took(job: Job) | Drained | MustWait

  predicate Admits(s: Slot) {
    !s.stopping && !s.active && s.job.None?
  }

  function Submit(s: Slot, job: Job): Slot {
    if Admits(s) then s.(active := true, job := Some(job)) else s
  }

  function Acquire(s: Slot): Slot {
    if Admits(s) then s.(active := true) else s
  }

  /** One look of the worker at the slot: a queued job first, even when stopping. */
  function Look(s: Slot): Taken {
    if s.job.Some? then Took(s.job.value) else if s.stopping then Drained else MustWait
  }

  function AfterLook(s: Slot): Slot {
    s.(job := None)
  }

  function Finish(s: Slot): Slot {
    s.(active := false)
  }

  function Stop(s: Slot): Slot {
    s.(stopping := true)
  }

  const EMPTY_SLOT := Slot(None, false, false)

  class ExecutionDispatcher {
    var job: Option<Job>
    var active: bool
    var stopping: bool
    // Read without the mutex, to report whether an operation is running.
    var activeSnapshot: bool

    predicate Valid()
      reads this
    {
      activeSnapshot == active
    }

    function View(): Slot
      reads this
    {
      Slot(job, active, stopping)
    }

    constructor ()
      ensures Valid() && View() == EMPTY_SLOT
    {
      job, active, stopping, activeSnapshot := None, false, false, false;
    }

    method TryAcquireMaintenance() returns (permit: bool)
      requires Valid()
      modifies this
      ensures Valid() && View() == Acquire(old(View())) && permit == old(Admits(View()))
    {
      if stopping || active || job.Some? {
        return false;
      }
      active, activeSnapshot := true, true;
      return true;
    }

    method TrySubmit(j: Job) returns (accepted: bool)
      requires Valid()
      modifies this
      ensures Valid() && View() == Submit(old(View()), j) && accepted == old(Admits(View()))
    {
      if stopping || active || job.Some? {
        return false;
      }
      active, activeSnapshot := true, true;
      job := Some(j);
      return true;
    }

    /** One turn of the loop in `take`; `MustWait` is the wait on the condition. */
    method Take() returns (t: Taken)
      requires Valid()
      modifies this
      ensures Valid() && t == Look(old(View())) && View() == AfterLook(old(View()))
    {
      if job.Some? {
        t := Took(job.value);
        job := None;
      } else if stopping {
        t := Drained;
      } else {
        t := MustWait;
      }
    }

    /** Read without the mutex. */
    method Active() returns (running: bool)
      requires Valid()
      ensures running == View().active
    {
      running := activeSnapshot;
    }

    method FinishOne()
      requires Valid()
      modifies this
      ensures Valid() && View() == Finish(old(View()))
    {
      active, activeSnapshot := false, false;
    }

    method StopAdmission()
      requires Valid()
      modifies this
      ensures Valid() && View() == Stop(old(View()))
    {
      stopping := true;
    }
  }

  // -------------------------------------------------------------- every schedule

  /** The worker thread: about to look, asleep on the condition, executing, gone. */
  datatype Worker = Looking | Asleep | Executing(job: Job) | Exited

  /** The slot with those who hold its token, and the history of jobs. */
  datatype System = System(
    slot: Slot,
    worker: Worker,
    permits: nat,
    accepted: seq<Job>,
    taken: seq<Job>)

  datatype Step =
    | TrySubmitStep(j: Job)
    | TryAcquireStep
    | LookStep
    | SpuriousWake
    | FinishJobStep
    | DropPermitStep
    | StopStep

  /** A notification on the condition puts a sleeping worker back to looking. */
  function Notified(w: Worker): Worker {
    if w.Asleep? then Looking else w
  }

  predicate Enabled(s: System, step: Step) {
    match step
    case LookStep => s.worker.Looking?
    case FinishJobStep => s.worker.Executing?
    case DropPermitStep => s.permits > 0
    case _ => true
  }

  function Do(s: System, step: Step): System
    requires Enabled(s, step)
  {
    match step
    case TrySubmitStep(j) =>
      if !Admits(s.slot) then s
      else s.(slot := Submit(s.slot, j), accepted := s.accepted + [j], worker := Notified(s.worker))
    case TryAcquireStep =>
      if !Admits(s.slot) then s else s.(slot := Acquire(s.slot), permits := s.permits + 1)
    case LookStep =>
      var t := Look(s.slot);
      s.(slot := AfterLook(s.slot),
         taken := if t.Took? then s.taken + [t.job] else s.taken,
         worker := match t case Took(j) => Executing(j) case Drained => Exited case MustWait => Asleep)
    case SpuriousWake => s.(worker := Notified(s.worker))
    case FinishJobStep => s.(slot := Finish(s.slot), worker := Looking)
    case DropPermitStep => s.(slot := Finish(s.slot), permits := s.permits - 1, worker := Notified(s.worker))
    case StopStep => s.(slot := Stop(s.slot), worker := Notified(s.worker))
  }

  const START := System(EMPTY_SLOT, Looking, 0, [], [])

  ghost predicate Run(run: seq<System>) {
    && run != []
    && run[0] == START
    && forall i :: 0 <= i < |run| - 1 ==> Steps(run[i], run[i + 1])
  }

  ghost predicate Steps(s: System, t: System) {
    exists step: Step :: Enabled(s, step) && t == Do(s, step)
  }

  function Queued(s: System): seq<Job> {
    if s.slot.job.Some? then [s.slot.job.value] else []
  }

  /** Who holds the slot: the queued job, the executing job, each permit. */
  function Tokens(s: System): nat {
    |Queued(s)| + (if s.worker.Executing? then 1 else 0) + s.permits
  }

  predicate Inv(s: System) {
    && Tokens(s) == (if s.slot.active then 1 else 0)
    && s.accepted == s.taken + Queued(s)
    && (s.worker.Asleep? ==> s.slot.job.None? && !s.slot.stopping)
    && (s.worker.Exited? ==> s.slot.stopping && s.slot.job.None?)
  }

  lemma StepKeepsInv(s: System, step: Step)
    requires Inv(s) && Enabled(s, step)
    ensures Inv(Do(s, step))
  {
    var t := Do(s, step);
    match step
    case TrySubmitStep(j) => if Admits(s.slot) { assert s.taken + Queued(t) == s.taken + Queued(s) + [j]; }
    case LookStep => assert t.taken + Queued(t) == s.taken + Queued(s);
    case _ =>
  }

  lemma {:induction false} RunKeepsInv(run: seq<System>, i: nat)
    requires Run(run) && i < |run|
    ensures Inv(run[i])
  {
    if i > 0 {
      RunKeepsInv(run, i - 1);
      assert Steps(run[i - 1], run[i - 1 + 1]);
      var step :| Enabled(run[i - 1], step) && run[i] == Do(run[i - 1], step);
      StepKeepsInv(run[i - 1], step);
    }
  }

  /** In every run the slot has at most one holder, and one exactly when it is
      marked active; so a job never executes beside a maintenance permit. */
  lemma OneHolder(run: seq<System>, i: nat)
    requires Run(run) && i < |run|
    ensures Tokens(run[i]) <= 1
    ensures Tokens(run[i]) == 1 <==> run[i].slot.active
    ensures run[i].worker.Executing? ==> run[i].permits == 0 && run[i].slot.job.None?
  {
    RunKeepsInv(run, i);
  }

  /** Once stopping, nothing more is accepted and no permit is granted. */
  lemma {:induction false} NothingAfterStop(run: seq<System>, i: nat, k: nat)
    requires Run(run) && i <= k < |run| && run[i].slot.stopping
    ensures run[k].slot.stopping && run[k].accepted == run[i].accepted && run[k].permits <= run[i].permits
    decreases k
  {
    if i < k {
      NothingAfterStop(run, i, k - 1);
      assert Steps(run[k - 1], run[k - 1 + 1]);
      var step :| Enabled(run[k - 1], step) && run[k] == Do(run[k - 1], step);
    }
  }

  /** Jobs are taken in the order they were accepted, none twice, and by the time
      the worker has exited every accepted job has been taken; nothing is
      accepted afterwards. */
  lemma EveryAcceptedJobIsTakenOnce(run: seq<System>, i: nat, k: nat)
    requires Run(run) && i <= k < |run|
    ensures run[i].taken <= run[i].accepted && |run[i].accepted| <= |run[i].taken| + 1
    ensures run[i].worker.Exited? ==> run[k].taken == run[k].accepted == run[i].accepted
  {
    RunKeepsInv(run, i);
    RunKeepsInv(run, k);
    if run[i].worker.Exited? {
      NothingAfterStop(run, i, k);
      ExitedStays(run, i, k);
    }
  }

  lemma {:induction false} ExitedStays(run: seq<System>, i: nat, k: nat)
    requires Run(run) && i <= k < |run| && run[i].worker.Exited?
    ensures run[k].worker.Exited?
    decreases k
  {
    if i < k {
      ExitedStays(run, i, k - 1);
      assert Steps(run[k - 1], run[k - 1 + 1]);
      var step :| Enabled(run[k - 1], step) && run[k] == Do(run[k - 1], step);
    }
  }

  /** No wake-up is lost: a worker is asleep only while there is nothing to do,
      and once the slot is stopping its next look never blocks. */
  lemma NoLostWakeup(run: seq<System>, i: nat)
    requires Run(run) && i < |run|
    ensures run[i].worker.Asleep? ==> run[i].slot.job.None? && !run[i].slot.stopping
    ensures run[i].slot.stopping ==> Look(run[i].slot) != MustWait
  {
    RunKeepsInv(run, i);
  }
}

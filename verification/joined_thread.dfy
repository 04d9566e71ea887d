/** A thread handle that any number of drainers may join at the same time. */
module JoinedThread {
  import opened Basics

  type Thread = nat

  /** `Joining` keeps the identity of the target after a drainer took its handle. */
  datatype JoinState = Empty | Running(target: Thread) | Joining(target: Thread) | Joined

  /** What a caller does after looking at the state under the mutex. */
  datatype Verdict = AlreadyDrained | OwnThread | TakeHandle(target: Thread) | WaitForOther

  function Judge(s: JoinState, me: Thread): Verdict {
    match s
    case Empty => AlreadyDrained
    case Joined => AlreadyDrained
    case Running(target) => if target == me then OwnThread else TakeHandle(target)
    case Joining(target) => if target == me then OwnThread else WaitForOther
  }

  function AfterJudging(s: JoinState, me: Thread): JoinState {
    if Judge(s, me).TakeHandle? then Joining(s.target) else s
  }

  class Handle {
    var state: JoinState

    constructor (thread: Option<Thread>)
      ensures state == if thread.Some? then Running(thread.value) else Empty
    {
      state := if thread.Some? then Running(thread.value) else Empty;
    }

    method Install(thread: Thread)
      requires state.Empty?
      modifies this
      ensures state == Running(thread)
    {
      state := Running(thread);
    }

    method IsRunning(finished: bool) returns (running: bool)
      ensures running <==> state.Joining? || (state.Running? && !finished)
    {
      match state
      case Running(_) => running := !finished;
      case Joining(_) => running := true;
      case _ => running := false;
    }

    /** One turn of the loop in `join`, run under the mutex. */
    method Look(me: Thread) returns (v: Verdict)
      modifies this
      ensures v == Judge(old(state), me) && state == AfterJudging(old(state), me)
    {
      match state
      case Empty => v := AlreadyDrained;
      case Joined => v := AlreadyDrained;
      case Running(target) =>
        if target == me {
          v := OwnThread;
        } else {
          v := TakeHandle(target);
          state := Joining(target);
        }
      case Joining(target) =>
        v := if target == me then OwnThread else WaitForOther;
    }

    /** The completion guard, dropped last. */
    method Complete()
      modifies this
      ensures state == Joined
    {
      state := Joined;
    }
  }

  // -------------------------------------------------------------- every schedule

  datatype Phase =
    | Looking
    | Waiting
    | HandleJoin
    | Completing
    | Notifying
    | Returned(drained: bool)

  /** One call of `join`; `sawThread` records that a look found a thread. */
  datatype Call = Call(me: Thread, phase: Phase, sawThread: bool)

  type CallId = nat

  /** `holder` is the call that took the handle, `takes` how often one did. */
  datatype System = System(
    state: JoinState,
    target: Option<Thread>,
    terminated: set<Thread>,
    calls: map<CallId, Call>,
    holder: Option<CallId>,
    takes: nat)

  datatype Step =
    | InstallStep(t: Thread)
    | TerminateStep(t: Thread)
    | CallStep(c: CallId, me: Thread)
    | LookStep(c: CallId)
    | SpuriousWake(c: CallId)
    | HandleJoinStep(c: CallId)
    | CompleteStep(c: CallId)
    | NotifyStep(c: CallId)

  predicate InPhase(s: System, c: CallId, p: Phase) {
    c in s.calls && s.calls[c].phase == p
  }

  predicate Enabled(s: System, step: Step) {
    match step
    case InstallStep(t) => s.state.Empty?
    // A thread ends only outside of any call it is making.
    case TerminateStep(t) => forall c :: c in s.calls && s.calls[c].me == t ==> s.calls[c].phase.Returned?
    case CallStep(c, me) => c !in s.calls && me !in s.terminated
    case LookStep(c) => InPhase(s, c, Looking)
    case SpuriousWake(c) => InPhase(s, c, Waiting)
    // The operating system's join returns once the target has ended.
    case HandleJoinStep(c) => InPhase(s, c, HandleJoin) && s.target.Some? && s.target.value in s.terminated
    case CompleteStep(c) => InPhase(s, c, Completing)
    case NotifyStep(c) => InPhase(s, c, Notifying)
  }

  function Move(s: System, c: CallId, p: Phase): System
    requires c in s.calls
  {
    s.(calls := s.calls[c := s.calls[c].(phase := p)])
  }

  function Woken(calls: map<CallId, Call>): map<CallId, Call> {
    map c | c in calls :: if calls[c].phase.Waiting? then calls[c].(phase := Looking) else calls[c]
  }

  function Looked(s: System, c: CallId): System
    requires c in s.calls
  {
    var call := s.calls[c].(sawThread := s.calls[c].sawThread || !s.state.Empty?);
    var v := Judge(s.state, call.me);
    var t := s.(state := AfterJudging(s.state, call.me));
    match v
    case AlreadyDrained => t.(calls := t.calls[c := call.(phase := Returned(true))])
    case OwnThread => t.(calls := t.calls[c := call.(phase := Returned(false))])
    case TakeHandle(_) =>
      t.(calls := t.calls[c := call.(phase := HandleJoin)], holder := Some(c), takes := t.takes + 1)
    case WaitForOther => t.(calls := t.calls[c := call.(phase := Waiting)])
  }

  function Do(s: System, step: Step): System
    requires Enabled(s, step)
  {
    match step
    case InstallStep(t) => s.(state := Running(t), target := Some(t))
    case TerminateStep(t) => s.(terminated := s.terminated + {t})
    case CallStep(c, me) => s.(calls := s.calls[c := Call(me, Looking, false)])
    case LookStep(c) => Looked(s, c)
    case SpuriousWake(c) => Move(s, c, Looking)
    case HandleJoinStep(c) => Move(s, c, Completing)
    case CompleteStep(c) => Move(s, c, Notifying).(state := Joined)
    case NotifyStep(c) => Move(s, c, Returned(true)).(calls := Woken(Move(s, c, Returned(true)).calls))
  }

  predicate Init(s: System) {
    s == System(Empty, None, {}, map[], None, 0)
  }

  ghost predicate Steps(s: System, t: System) {
    exists step: Step :: Enabled(s, step) && t == Do(s, step)
  }

  ghost predicate Run(run: seq<System>) {
    && run != [] && Init(run[0])
    && forall i :: 0 <= i < |run| - 1 ==> Steps(run[i], run[i + 1])
  }

  predicate TargetEnded(s: System) {
    s.target.Some? && s.target.value in s.terminated
  }

  /** What each call's phase says about the shared state. */
  predicate CallInv(s: System, c: CallId)
    requires c in s.calls
  {
    var call := s.calls[c];
    && (call.phase.HandleJoin? || call.phase.Completing? || call.phase.Notifying? ==> s.holder == Some(c))
    && (call.phase.Waiting? ==>
          && s.target.Some? && call.me != s.target.value
          && (s.state.Joining? || (s.holder.Some? && InPhase(s, s.holder.value, Notifying))))
    && (call.phase == Returned(true) && call.sawThread ==> TargetEnded(s))
    && (call.phase == Returned(false) ==> s.target == Some(call.me))
    && ((call.phase.HandleJoin? || call.phase.Completing?) ==> s.target.Some? && call.me != s.target.value)
    && (call.phase.Completing? ==> TargetEnded(s))
    && (call.sawThread ==> s.target.Some?)
  }

  predicate Inv(s: System) {
    && (s.state.Empty? <==> s.target.None?)
    && (s.state.Running? || s.state.Joining? ==> s.target == Some(s.state.target))
    && s.takes == (if s.state.Joining? || s.state.Joined? then 1 else 0)
    && (s.holder.Some? <==> s.takes == 1)
    && (s.state.Joining? ==> InPhase(s, s.holder.value, HandleJoin) || InPhase(s, s.holder.value, Completing))
    && (s.state.Joined? ==>
          && TargetEnded(s)
          && (InPhase(s, s.holder.value, Notifying) || InPhase(s, s.holder.value, Returned(true))))
    && forall c :: c in s.calls ==> CallInv(s, c)
  }

  lemma LookKeepsInv(s: System, c: CallId)
    requires Inv(s) && Enabled(s, LookStep(c))
    ensures Inv(Do(s, LookStep(c)))
  {
    var t := Do(s, LookStep(c));
    assert CallInv(s, c);
    forall d | d in t.calls ensures CallInv(t, d) { assert CallInv(s, d); }
  }

  lemma NotifyKeepsInv(s: System, c: CallId)
    requires Inv(s) && Enabled(s, NotifyStep(c))
    ensures Inv(Do(s, NotifyStep(c)))
  {
    var t := Do(s, NotifyStep(c));
    assert CallInv(s, c);
    forall d | d in t.calls ensures CallInv(t, d) { assert CallInv(s, d); }
  }

  lemma StepKeepsInv(s: System, step: Step)
    requires Inv(s) && Enabled(s, step)
    ensures Inv(Do(s, step))
  {
    if step.LookStep? {
      LookKeepsInv(s, step.c);
    } else if step.NotifyStep? {
      NotifyKeepsInv(s, step.c);
    } else {
      if step.CompleteStep? || step.HandleJoinStep? { assert CallInv(s, step.c); }
      var t := Do(s, step);
      forall d | d in t.calls ensures CallInv(t, d) {
        if d in s.calls { assert CallInv(s, d); }
      }
    }
  }

  lemma {:induction false} RunKeepsInv(run: seq<System>, i: nat)
    requires Run(run) && i < |run|
    ensures Inv(run[i])
  {
    if i > 0 {
      RunKeepsInv(run, i - 1);
      assert Steps(run[i - 1], run[i - 1 + 1]);
      var step :| Enabled(run[i - 1], step) && run[i] == Do(run[i - 1], step);
      StepKeepsInv(run[i - 1], step);
    }
  }

  /** However many drainers race, the handle is taken at most once. */
  lemma HandleTakenAtMostOnce(run: seq<System>, i: nat)
    requires Run(run) && i < |run|
    ensures run[i].takes <= 1
  {
    RunKeepsInv(run, i);
  }

  /** A call that found a thread and answers true answers after that thread has
      ended; a call that answers false was made by the thread itself. */
  lemma TrueMeansEnded(run: seq<System>, i: nat, c: CallId)
    requires Run(run) && i < |run| && c in run[i].calls && run[i].calls[c].phase.Returned?
    ensures run[i].calls[c].phase.drained && run[i].calls[c].sawThread ==> TargetEnded(run[i])
    ensures !run[i].calls[c].phase.drained ==> run[i].target == Some(run[i].calls[c].me)
  {
    RunKeepsInv(run, i);
    assert CallInv(run[i], c);
  }

  /** The target's own call never blocks: it is never waiting and never joins
      itself, and its look at a live handle answers false at once. */
  lemma TargetNeverBlocks(run: seq<System>, i: nat, c: CallId)
    requires Run(run) && i < |run| && c in run[i].calls && run[i].target == Some(run[i].calls[c].me)
    ensures !run[i].calls[c].phase.Waiting? && !run[i].calls[c].phase.HandleJoin?
    ensures run[i].calls[c].phase.Looking? && (run[i].state.Running? || run[i].state.Joining?) ==>
              Do(run[i], LookStep(c)).calls[c].phase == Returned(false)
  {
    RunKeepsInv(run, i);
    assert CallInv(run[i], c);
  }

  /** No waiter is left asleep once the state is `Joined`: while one is, the
      drainer that joined still has its notification to make, and that wakes
      every waiter. */
  lemma NoWaiterLeftAsleep(run: seq<System>, i: nat, c: CallId)
    requires Run(run) && i < |run| && run[i].state.Joined? && InPhase(run[i], c, Waiting)
    ensures run[i].holder.Some? && Enabled(run[i], NotifyStep(run[i].holder.value))
    ensures forall d :: !InPhase(Do(run[i], NotifyStep(run[i].holder.value)), d, Waiting)
    ensures forall d :: d in run[i].calls && run[i].calls[d].phase.Waiting? ==>
              InPhase(Do(run[i], NotifyStep(run[i].holder.value)), d, Looking)
  {
    RunKeepsInv(run, i);
    assert CallInv(run[i], c);
  }
}

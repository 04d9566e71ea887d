/** Runs of the joined handle: no call of `join` is stuck. Once the thread has ended, every
    call under way can return, whoever holds the handle. */
module JoinedRuns {
  import opened Basics
  import opened JoinedThread

  function Last(run: seq<System>): System
    requires run != []
  {
    run[|run| - 1]
  }

  lemma Extend(run: seq<System>, step: Step) returns (longer: seq<System>)
    requires Run(run) && run != [] && Enabled(Last(run), step)
    ensures Run(longer) && longer != [] && Last(longer) == Do(Last(run), step)
  {
    hide Enabled, Do, Init;
    longer := run + [Do(Last(run), step)];
    forall i | 0 <= i < |longer| - 1 ensures Steps(longer[i], longer[i + 1]) {
      if i < |run| - 1 {
        assert Steps(run[i], run[i + 1]);
      } else {
        assert longer[i] == Last(run) && longer[i + 1] == Do(Last(run), step);
      }
    }
  }

  /** The call is as it was before. */
  predicate Kept(s: System, t: System, c: CallId) {
    c in s.calls && c in t.calls && t.calls[c] == s.calls[c] && t.target == s.target
  }

  /** The drainer that holds the handle gets to its notification. */
  lemma HolderCompletes(run: seq<System>, h: CallId, c: CallId) returns (longer: seq<System>)
    requires Run(run) && run != [] && TargetEnded(Last(run)) && c in Last(run).calls
    requires InPhase(Last(run), h, HandleJoin) || InPhase(Last(run), h, Completing)
    ensures Run(longer) && longer != [] && Last(longer).state.Joined? && InPhase(Last(longer), h, Notifying)
    ensures c != h ==> Kept(Last(run), Last(longer), c)
    ensures Last(longer).target == Last(run).target
  {
    hide Run;
    longer := run;
    if InPhase(Last(run), h, HandleJoin) { longer := Extend(run, HandleJoinStep(h)); }
    longer := Extend(longer, CompleteStep(h));
  }

  /** The notification returns its drainer and sets every sleeper looking. */
  lemma HolderNotifies(run: seq<System>, h: CallId, c: CallId) returns (longer: seq<System>)
    requires Run(run) && run != [] && InPhase(Last(run), h, Notifying) && c in Last(run).calls
    ensures Run(longer) && longer != [] && Last(longer).state == Last(run).state && Last(longer).target == Last(run).target
    ensures InPhase(Last(longer), h, Returned(true))
    ensures c != h && Last(run).calls[c].phase.Waiting? ==> InPhase(Last(longer), c, Looking)
  {
    hide Run;
    longer := Extend(run, NotifyStep(h));
  }

  lemma LookerReturns(run: seq<System>, c: CallId) returns (longer: seq<System>)
    requires Run(run) && run != [] && InPhase(Last(run), c, Looking) && (Last(run).state.Joined? || Last(run).state.Empty?)
    ensures Run(longer) && longer != [] && InPhase(Last(longer), c, Returned(true)) && Last(longer).target == Last(run).target
  {
    hide Run;
    longer := Extend(run, LookStep(c));
  }

  lemma HolderReturns(run: seq<System>, c: CallId) returns (longer: seq<System>)
    requires Run(run) && run != [] && TargetEnded(Last(run))
    requires InPhase(Last(run), c, HandleJoin) || InPhase(Last(run), c, Completing) || InPhase(Last(run), c, Notifying)
    ensures Run(longer) && longer != [] && InPhase(Last(longer), c, Returned(true)) && Last(longer).target == Last(run).target
  {
    hide Run;
    longer := run;
    if !InPhase(Last(run), c, Notifying) { longer := HolderCompletes(run, c, c); }
    longer := HolderNotifies(longer, c, c);
  }

  lemma SleeperReturns(run: seq<System>, c: CallId) returns (longer: seq<System>)
    requires Run(run) && run != [] && TargetEnded(Last(run)) && InPhase(Last(run), c, Waiting)
    ensures Run(longer) && longer != [] && InPhase(Last(longer), c, Returned(true)) && Last(longer).target == Last(run).target
  {
    RunKeepsInv(run, |run| - 1);
    hide Run;
    assert CallInv(Last(run), c);
    var h := Last(run).holder.value;
    longer := run;
    if Last(run).state.Joining? { longer := HolderCompletes(run, h, c); }
    RunKeepsInv(longer, |longer| - 1);
    NotifierHasJoined(Last(longer), h);
    longer := HolderNotifies(longer, h, c);
    longer := LookerReturns(longer, c);
  }

  lemma NotifierHasJoined(s: System, h: CallId)
    requires Inv(s) && InPhase(s, h, Notifying)
    ensures s.state.Joined?
  {
    assert CallInv(s, h);
  }

  /** A look for a call by another thread: it takes the handle, or waits for the drainer
      that has it, or is done. */
  lemma LookingReturns(run: seq<System>, c: CallId) returns (longer: seq<System>)
    requires Run(run) && run != [] && InPhase(Last(run), c, Looking) && TargetEnded(Last(run))
    requires Last(run).target != Some(Last(run).calls[c].me)
    ensures Run(longer) && longer != [] && InPhase(Last(longer), c, Returned(true)) && Last(longer).target == Last(run).target
  {
    RunKeepsInv(run, |run| - 1);
    hide Run;
    match Last(run).state
    case Running(_) =>
      longer := Extend(run, LookStep(c));
      longer := HolderReturns(longer, c);
    case Joining(_) =>
      longer := HolderCompletes(run, Last(run).holder.value, c);
      longer := LookerReturns(longer, c);
    case _ =>
      longer := LookerReturns(run, c);
  }

  /** From every state of every run, each call under way of another thread can return
      true once the target has ended. */
  lemma EveryJoinCanReturn(run: seq<System>, c: CallId) returns (longer: seq<System>)
    requires Run(run) && run != [] && c in Last(run).calls && !Last(run).calls[c].phase.Returned? && TargetEnded(Last(run))
    requires Last(run).target != Some(Last(run).calls[c].me)
    ensures Run(longer) && longer != [] && InPhase(Last(longer), c, Returned(true)) && Last(longer).target == Last(run).target
  {
    hide Run;
    match Last(run).calls[c].phase
    case Looking => longer := LookingReturns(run, c);
    case Waiting => longer := SleeperReturns(run, c);
    case _ => longer := HolderReturns(run, c);
  }

  /** A call that finds another drainer at work sleeps; it does not spin. */
  lemma LatecomerSleeps(run: seq<System>, c: CallId) returns (longer: seq<System>)
    requires Run(run) && run != [] && InPhase(Last(run), c, Looking) && Last(run).state.Joining?
    requires Last(run).state.target != Last(run).calls[c].me
    ensures Run(longer) && longer != [] && InPhase(Last(longer), c, Waiting) && Last(longer).state == Last(run).state
  {
    hide Run;
    longer := Extend(run, LookStep(c));
  }
}

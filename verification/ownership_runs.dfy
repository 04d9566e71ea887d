/** Runs of the coordinator that shut an owner down in order: from every serving owner
    there is one, and a successor can serve after it. */
module OwnershipRuns {
  import opened Basics
  import opened CoordinatorOwnership
  import D = Dispatcher

  function Me(run: seq<System>, o: Owner): OwnerState
    requires run != [] && o in Last(run).owners
  {
    Last(run).owners[o]
  }

  /** Nothing but this owner has changed. */
  predicate Only(s: System, t: System, o: Owner) {
    o in t.owners && t == s.(owners := s.owners[o := t.owners[o]])
  }

  lemma OnlyTwice(s: System, t: System, u: System, o: Owner)
    requires Only(s, t, o) && Only(t, u, o)
    ensures Only(s, u, o)
  {
    assert s.owners[o := t.owners[o]][o := u.owners[o]] == s.owners[o := u.owners[o]];
  }

  lemma OnlySelf(s: System, o: Owner)
    requires o in s.owners
    ensures Only(s, s, o)
  {
    assert s.owners[o := s.owners[o]] == s.owners;
  }

  /** One step of the owner that keeps the lease and the state file. */
  lemma Moves(run: seq<System>, panics: Panics, o: Owner, step: Step) returns (longer: seq<System>)
    requires Run(run, panics) && run != [] && o in Last(run).owners && Enabled(Last(run), o, step, panics)
    requires Rank(OwnerAfter(Me(run, o), step).phase) < 11 && !step.AcquireStep? && !step.PublishStep? && !step.RemoveStateStep?
    ensures Run(longer, panics) && longer != [] && Only(Last(run), Last(longer), o) && Me(longer, o) == OwnerAfter(Me(run, o), step)
  {
    hide Run, Enabled, OwnerAfter;
    longer := Extend(run, panics, o, step);
  }

  lemma {:induction false} EndsHandlers(run: seq<System>, panics: Panics, o: Owner) returns (longer: seq<System>)
    requires Run(run, panics) && run != [] && o in Last(run).owners && Me(run, o).phase.Stopping?
    ensures Run(longer, panics) && longer != [] && Only(Last(run), Last(longer), o)
    ensures Me(longer, o) == Me(run, o).(phase := HandlersJoined, handlers := 0)
    decreases Me(run, o).handlers
  {
    hide Run;
    if Me(run, o).handlers == 0 {
      longer := Moves(run, panics, o, JoinHandlersStep);
    } else {
      var next := Moves(run, panics, o, HandlerEndsStep);
      longer := EndsHandlers(next, panics, o);
      OnlyTwice(Last(run), Last(next), Last(longer), o);
    }
  }

  /** How many steps a stopped worker still has to take. */
  function WorkLeft(d: D.System): nat {
    2 * |D.Queued(d)| + (if d.worker.Executing? then 1 else 0) + (if d.worker.Exited? then 0 else 1)
  }

  /** A stopped worker never sleeps, and its next step leaves less work. */
  lemma WorkerAdvances(d: D.System)
    requires D.Inv(d) && d.slot.stopping && !d.worker.Exited?
    ensures var step := if d.worker.Executing? then D.FinishJobStep else D.LookStep;
            && D.Enabled(d, step) && WorkLeft(D.Do(d, step)) < WorkLeft(d)
            && D.Do(d, step).slot.stopping && D.Do(d, step).accepted == d.accepted && D.Do(d, step).permits == d.permits
  {}

  /** A stopped worker executes what was accepted, and ends. */
  lemma {:induction false} DrainsWorker(run: seq<System>, panics: Panics, o: Owner) returns (longer: seq<System>)
    requires Run(run, panics) && run != [] && o in Last(run).owners
    requires Me(run, o).phase.HandlersJoined? && Me(run, o).dispatch.slot.stopping
    ensures Run(longer, panics) && longer != [] && Only(Last(run), Last(longer), o)
    ensures var me, d := Me(run, o), Me(longer, o).dispatch;
            Me(longer, o) == me.(dispatch := d) && d.worker.Exited? && d.accepted == me.dispatch.accepted
    decreases WorkLeft(Me(run, o).dispatch)
  {
    hide Run, D.Do, WorkLeft, D.Inv;
    RunKeepsInv(run, panics, |run| - 1);
    var d := Me(run, o).dispatch;
    assert OwnerInv(Me(run, o));
    if d.worker.Exited? {
      longer := run;
      OnlySelf(Last(run), o);
    } else {
      WorkerAdvances(d);
      var next := Moves(run, panics, o, DispatchStep(if d.worker.Executing? then D.FinishJobStep else D.LookStep));
      longer := DrainsWorker(next, panics, o);
      OnlyTwice(Last(run), Last(next), Last(longer), o);
    }
  }

  lemma EndsRefresh(run: seq<System>, panics: Panics, o: Owner) returns (longer: seq<System>)
    requires Run(run, panics) && run != [] && o in Last(run).owners && Me(run, o).phase.WorkerJoined?
    ensures Run(longer, panics) && longer != [] && Only(Last(run), Last(longer), o)
    ensures Me(longer, o) == Me(run, o).(phase := RefreshJoined, refreshLive := false, refreshBusy := false)
  {
    hide Run;
    var idle := run;
    if Me(run, o).refreshBusy { idle := Moves(run, panics, o, RefreshEndsStep); } else { OnlySelf(Last(run), o); }
    longer := Moves(idle, panics, o, JoinRefreshStep);
    OnlyTwice(Last(run), Last(idle), Last(longer), o);
  }

  lemma {:induction false} EndsMaintenance(run: seq<System>, panics: Panics, o: Owner) returns (longer: seq<System>)
    requires Run(run, panics) && run != [] && o in Last(run).owners && Me(run, o).phase.RefreshJoined?
    ensures Run(longer, panics) && longer != [] && Only(Last(run), Last(longer), o)
    ensures var me, d := Me(run, o), Me(longer, o).dispatch;
            && Me(longer, o) == me.(phase := MaintenanceJoined, maintenanceLive := false, dispatch := d)
            && d.accepted == me.dispatch.accepted
    decreases Me(run, o).dispatch.permits
  {
    hide Run, D.Inv;
    RunKeepsInv(run, panics, |run| - 1);
    assert OwnerInv(Me(run, o));
    if Me(run, o).dispatch.permits == 0 {
      longer := Moves(run, panics, o, JoinMaintenanceStep);
    } else {
      var next := Moves(run, panics, o, DispatchStep(D.DropPermitStep));
      longer := EndsMaintenance(next, panics, o);
      OnlyTwice(Last(run), Last(next), Last(longer), o);
    }
  }

  lemma Checks(run: seq<System>, panics: Panics, o: Owner) returns (longer: seq<System>)
    requires Run(run, panics) && run != [] && o in Last(run).owners && Me(run, o).phase.MaintenanceJoined?
    ensures Run(longer, panics) && longer != [] && Only(Last(run), Last(longer), o) && Last(longer).lease == Some(o)
    ensures Me(longer, o) == Me(run, o).(phase := StateChecked(true))
  {
    hide Run;
    RunKeepsInv(run, panics, |run| - 1);
    hide OwnerInv;
    longer := Moves(run, panics, o, CheckStateStep(true));
  }

  /** With its threads joined the owner removes its state file and frees the lease. */
  lemma Leaves(run: seq<System>, panics: Panics, o: Owner) returns (longer: seq<System>)
    requires Run(run, panics) && run != [] && o in Last(run).owners && Me(run, o).phase.MaintenanceJoined?
    ensures Run(longer, panics) && longer != []
    ensures Last(longer) == System(None, None, Last(run).owners[o := Me(run, o).(phase := Gone)])
  {
    hide Run;
    var checked := Checks(run, panics, o);
    longer := Extend(checked, panics, o, RemoveStateStep(true));
    longer := Extend(longer, panics, o, ReleaseStep);
    var me := Me(run, o);
    assert Last(checked).owners[o := me.(phase := StateRemoved)][o := me.(phase := Gone)] == Last(run).owners[o := me.(phase := Gone)];
  }

  lemma JoinsWorker(run: seq<System>, panics: Panics, o: Owner) returns (longer: seq<System>)
    requires Run(run, panics) && run != [] && o in Last(run).owners && Me(run, o).phase.Serving?
    ensures Run(longer, panics) && longer != [] && Only(Last(run), Last(longer), o)
    ensures Me(longer, o).phase.WorkerJoined? && Me(longer, o).dispatch.accepted == Me(run, o).dispatch.accepted
  {
    hide Run;
    var stopping := Moves(run, panics, o, StopStep);
    var joined := EndsHandlers(stopping, panics, o);
    var drained := DrainsWorker(joined, panics, o);
    longer := Moves(drained, panics, o, JoinWorkerStep);
    OnlyTwice(Last(run), Last(stopping), Last(joined), o);
    OnlyTwice(Last(run), Last(joined), Last(drained), o);
    OnlyTwice(Last(run), Last(drained), Last(longer), o);
  }

  lemma JoinsRest(run: seq<System>, panics: Panics, o: Owner) returns (longer: seq<System>)
    requires Run(run, panics) && run != [] && o in Last(run).owners && Me(run, o).phase.WorkerJoined?
    ensures Run(longer, panics) && longer != [] && Only(Last(run), Last(longer), o)
    ensures Me(longer, o).phase.MaintenanceJoined? && Me(longer, o).dispatch.accepted == Me(run, o).dispatch.accepted
  {
    hide Run;
    var refreshed := EndsRefresh(run, panics, o);
    longer := EndsMaintenance(refreshed, panics, o);
    OnlyTwice(Last(run), Last(refreshed), Last(longer), o);
  }

  /** Every serving owner, whatever it is doing, can shut down in order: its state file
      and the lease are gone, its threads are joined, every job it had accepted has been
      taken, and no other owner was touched. */
  lemma ServingOwnerCanShutDown(run: seq<System>, panics: Panics, o: Owner) returns (longer: seq<System>)
    requires Run(run, panics) && run != [] && o in Last(run).owners && Me(run, o).phase.Serving?
    ensures Run(longer, panics) && longer != [] && o in Last(longer).owners
    ensures var me := Me(longer, o);
            && Last(longer) == System(None, None, Last(run).owners[o := me])
            && me.phase.Gone? && me.handlers == 0 && !me.refreshLive && !me.maintenanceLive && !Working(me)
            && me.dispatch.accepted == me.dispatch.taken == Me(run, o).dispatch.accepted
  {
    hide Run;
    var joined := JoinsWorker(run, panics, o);
    var done := JoinsRest(joined, panics, o);
    OnlyTwice(Last(run), Last(joined), Last(done), o);
    RunKeepsInv(done, panics, |done| - 1);
    assert OwnerInv(Me(done, o));
    longer := Leaves(done, panics, o);
  }

  /** After the shutdown of any serving owner, any new owner can serve. */
  lemma SuccessorCanServe(run: seq<System>, panics: Panics, o: Owner, next: Owner) returns (longer: seq<System>)
    requires Run(run, panics) && run != [] && o in Last(run).owners && Me(run, o).phase.Serving? && next !in Last(run).owners
    ensures Run(longer, panics) && longer != [] && o in Last(longer).owners && Me(longer, o).phase.Gone?
    ensures Last(longer).lease == Last(longer).file == Some(next) && next in Last(longer).owners && Me(longer, next).phase.Serving?
  {
    hide Run;
    longer := ServingOwnerCanShutDown(run, panics, o);
    longer := Serves(longer, panics, next);
  }

  /** An owner's maintenance can be granted the slot while it is free. */
  lemma MaintenanceCanHold(run: seq<System>, panics: Panics, o: Owner) returns (longer: seq<System>)
    requires Run(run, panics) && run != [] && o in Last(run).owners && Me(run, o).maintenanceLive && D.Admits(Me(run, o).dispatch.slot)
    requires Rank(Me(run, o).phase) < 11
    ensures Run(longer, panics) && longer != [] && Only(Last(run), Last(longer), o)
    ensures Me(longer, o).dispatch.permits == Me(run, o).dispatch.permits + 1 && Working(Me(longer, o))
  {
    hide Run;
    longer := Moves(run, panics, o, DispatchStep(D.TryAcquireStep));
  }
}

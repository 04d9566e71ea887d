/** Runs of the worker supervision that recover an orphan and complete a build, and what
    an exit says about the build at hand. */
module WorkerRuns {
  import opened Basics
  import opened WorkerSupervision

  /** The supervisor holds the lease and is in the given phase. */
  predicate At(s: System, p: Supervisor, ph: Phase) {
    p in s.supervisors && s.supervisors[p] == ph && s.lease == Some(p)
  }

  lemma Again(phases: map<Supervisor, Phase>, p: Supervisor, a: Phase, b: Phase)
    ensures phases[p := a][p := b] == phases[p := b]
  {}

  /** A supervisor that finds the descriptor of an empty containment recovers it: the
      state file is gone, the proof is kept and the way is clear. */
  lemma RecoversOrphan(run: seq<System>, blind: Blindness, p: Supervisor, b: Build) returns (longer: seq<System>)
    requires Run(run, blind) && run != []
    requires var s := Last(run); s.lease.None? && p !in s.supervisors && s.file == Descriptor(b) && b in s.empty
    ensures Run(longer, blind) && longer != []
    ensures var s := Last(run);
            Last(longer) == s.(lease := Some(p), file := Absent, supervisors := s.supervisors[p := Clear], proven := s.proven + {b})
  {
    hide Run;
    longer := FindsDescriptor(run, blind, p, b);
    var found := Last(longer).supervisors;
    longer := Extend(longer, blind, Acts(p, RecoverStep(true)));
    longer := Extend(longer, blind, Acts(p, RemoveRecoveredStep(true)));
    Again(found, p, Recovered(b), Clear);
    Again(Last(run).supervisors, p, Recovering(b), Clear);
  }

  lemma FindsDescriptor(run: seq<System>, blind: Blindness, p: Supervisor, b: Build) returns (longer: seq<System>)
    requires Run(run, blind) && run != []
    requires var s := Last(run); s.lease.None? && p !in s.supervisors && s.file == Descriptor(b)
    ensures Run(longer, blind) && longer != []
    ensures var s := Last(run); Last(longer) == s.(lease := Some(p), supervisors := s.supervisors[p := Recovering(b)])
  {
    hide Run;
    longer := Extend(run, blind, Acts(p, AcquireStep));
    longer := Extend(longer, blind, Acts(p, LookStep(true)));
    longer := Extend(longer, blind, Acts(p, ReadStateStep(true, true)));
    Again(Last(run).supervisors, p, Leased, Found);
    Again(Last(run).supervisors, p, Found, Recovering(b));
  }

  /** A supervisor without a state file on its way starts a new build, which runs and
      ends; its record is gone, its proof is kept and the lease is free. */
  lemma CompletesBuild(run: seq<System>, blind: Blindness, p: Supervisor, c: Build) returns (running: seq<System>, longer: seq<System>)
    requires Run(run, blind) && run != []
    requires var s := Last(run); At(s, p, Clear) && c !in s.known && c !in s.empty
    ensures Run(running, blind) && running != []
    ensures c in Last(running).running && Last(running).file == Descriptor(c) && At(Last(running), p, StartSent(c))
    ensures Run(longer, blind) && longer != []
    ensures var s := Last(run);
            Last(longer) == s.(lease := None, file := Absent, supervisors := s.supervisors[p := Exited(Finished)],
                               known := s.known + {c}, startSent := s.startSent + {c}, running := s.running - {c},
                               empty := s.empty + {c}, proven := s.proven + {c})
  {
    hide Run;
    longer := PersistsBuild(run, blind, p, c);
    longer := StartsPersisted(longer, blind, p, c);
    running := longer;
    Again(Last(run).supervisors, p, Persisted(c), StartSent(c));
    longer := Supervised(running, blind, p, c);
    Again(Last(run).supervisors, p, StartSent(c), Exited(Finished));
    assert Last(run).running + {c} - {c} == Last(run).running - {c};
  }

  lemma Supervised(run: seq<System>, blind: Blindness, p: Supervisor, c: Build) returns (longer: seq<System>)
    requires Run(run, blind) && run != []
    requires var s := Last(run); At(s, p, StartSent(c)) && c in s.known && s.file == Descriptor(c)
    ensures Run(longer, blind) && longer != []
    ensures var s := Last(run);
            Last(longer) == s.(lease := None, file := Absent, supervisors := s.supervisors[p := Exited(Finished)],
                               running := s.running - {c}, empty := s.empty + {c}, proven := s.proven + {c})
  {
    hide Run;
    longer := Extend(run, blind, Acts(p, StartAnswerStep(true)));
    longer := Extend(longer, blind, ContainmentEmpties(c));
    longer := Extend(longer, blind, Acts(p, SupervisedStep(true)));
    Again(Last(run).supervisors, p, Supervising(c), ProvenEmpty(c));
    longer := Extend(longer, blind, Acts(p, RemoveStateStep(true)));
    Again(Last(run).supervisors, p, ProvenEmpty(c), Exited(Finished));
  }

  /** An orphan with an empty containment blocks nobody: a fresh supervisor recovers it,
      builds, and leaves no state file. */
  lemma OrphanIsRecoveredAndBuilt(run: seq<System>, blind: Blindness, p: Supervisor, b: Build, c: Build)
    returns (clear: seq<System>, longer: seq<System>)
    requires Run(run, blind) && run != []
    requires var s := Last(run); s.lease.None? && p !in s.supervisors && s.file == Descriptor(b) && b in s.empty && c !in s.known && c !in s.empty
    ensures Run(clear, blind) && clear != [] && At(Last(clear), p, Clear) && Last(clear).file == Absent && b in Last(clear).proven
    ensures Run(longer, blind) && longer != [] && Last(longer).lease == None && Last(longer).file == Absent
    ensures p in Last(longer).supervisors && Last(longer).supervisors[p] == Exited(Finished) && {b, c} <= Last(longer).proven
  {
    hide Run;
    clear := RecoversOrphan(run, blind, p, b);
    var running;
    running, longer := CompletesBuild(clear, blind, p, c);
  }

  /** The build a supervisor has persisted and not yet proven empty. */
  predicate Holds(ph: Phase, b: Build) {
    ph == Persisted(b) || ph == StartSent(b) || ph == Supervising(b) || ph == TearingDown(b)
  }

  /** From every such phase a teardown that proves the containment empty removes the
      record and frees the lease. */
  lemma TearsDown(run: seq<System>, blind: Blindness, p: Supervisor, b: Build) returns (longer: seq<System>)
    requires Run(run, blind) && run != []
    requires var s := Last(run); p in s.supervisors && Holds(s.supervisors[p], b) && s.lease == Some(p) && s.file == Descriptor(b) && b in s.empty
    ensures Run(longer, blind) && longer != []
    ensures var s := Last(run);
            Last(longer) == s.(lease := None, file := Absent, supervisors := s.supervisors[p := Exited(Finished)], proven := s.proven + {b})
  {
    hide Run;
    longer := GivesUp(run, blind, p, b);
    longer := ProvesEmpty(longer, blind, p, b);
    Again(Last(run).supervisors, p, TearingDown(b), Exited(Finished));
  }

  lemma GivesUp(run: seq<System>, blind: Blindness, p: Supervisor, b: Build) returns (longer: seq<System>)
    requires Run(run, blind) && run != []
    requires var s := Last(run); p in s.supervisors && Holds(s.supervisors[p], b) && s.lease == Some(p)
    ensures Run(longer, blind) && longer != []
    ensures var s := Last(run); Last(longer) == s.(supervisors := s.supervisors[p := TearingDown(b)])
  {
    hide Run;
    match Last(run).supervisors[p]
    case Persisted(_) => longer := Extend(run, blind, Acts(p, CancelBeforeStartStep));
    case StartSent(_) => longer := Extend(run, blind, Acts(p, StartAnswerStep(false)));
    case Supervising(_) => longer := Extend(run, blind, Acts(p, SupervisionFailsStep));
    case TearingDown(_) =>
      longer := run;
      assert Last(run).supervisors == Last(run).supervisors[p := TearingDown(b)];
  }

  lemma ProvesEmpty(run: seq<System>, blind: Blindness, p: Supervisor, b: Build) returns (longer: seq<System>)
    requires Run(run, blind) && run != []
    requires var s := Last(run); At(s, p, TearingDown(b)) && s.file == Descriptor(b) && b in s.empty
    ensures Run(longer, blind) && longer != []
    ensures var s := Last(run);
            Last(longer) == s.(lease := None, file := Absent, supervisors := s.supervisors[p := Exited(Finished)], proven := s.proven + {b})
  {
    hide Run;
    longer := Extend(run, blind, Acts(p, TeardownStep(true)));
    longer := Extend(longer, blind, Acts(p, RemoveStateStep(true)));
    Again(Last(run).supervisors, p, ProvenEmpty(b), Exited(Finished));
  }

  /** A state file that vanished after the look leaves the way clear. */
  lemma VanishedStateClears(run: seq<System>, blind: Blindness, p: Supervisor) returns (longer: seq<System>)
    requires Run(run, blind) && run != [] && At(Last(run), p, Found) && Last(run).file.Absent?
    ensures Run(longer, blind) && longer != []
    ensures Last(longer) == Last(run).(supervisors := Last(run).supervisors[p := Clear])
  {
    hide Run;
    longer := Extend(run, blind, Acts(p, ReadStateStep(true, true)));
  }

  /** A child whose descriptor could not be written is torn down: with proof that it is
      empty the supervisor refuses, and leaves the file as it is. */
  lemma UnpersistedIsTornDown(run: seq<System>, blind: Blindness, p: Supervisor, b: Build) returns (longer: seq<System>)
    requires Run(run, blind) && run != [] && At(Last(run), p, PersistFailed(b)) && b in Last(run).empty
    ensures Run(longer, blind) && longer != []
    ensures var s := Last(run);
            Last(longer) == s.(lease := None, supervisors := s.supervisors[p := Exited(Refused)], proven := s.proven + {b})
  {
    hide Run;
    longer := Extend(run, blind, Acts(p, TeardownUnpersistedStep(true)));
  }

  /** A child that could not be prepared: the supervisor refuses if it has cleaned up, and
      says so if it could not prove that nothing is left. */
  lemma PreparationFails(run: seq<System>, blind: Blindness, p: Supervisor, b: Build, unknown: bool) returns (longer: seq<System>)
    requires Run(run, blind) && run != [] && At(Last(run), p, Clear) && b !in Last(run).known
    ensures Run(longer, blind) && longer != []
    ensures var s := Last(run);
            Last(longer) == s.(lease := None, known := s.known + {b},
                               supervisors := s.supervisors[p := Exited(if unknown then ContainmentUnknown else Refused)])
  {
    hide Run;
    longer := Extend(run, blind, Acts(p, PrepareFailsStep(b, unknown)));
  }

  // ------------------------------------------------------------- what an exit says

  /** The build a phase is about. */
  function About(ph: Phase): set<Build> {
    match ph
    case Recovering(b) => {b}
    case PersistFailed(b) => {b}
    case StartSent(b) => {b}
    case Supervising(b) => {b}
    case TearingDown(b) => {b}
    case ProvenEmpty(b) => {b}
    case _ => {}
  }

  /** A supervisor that leaves a build at hand, other than by a crash, says that its
      containment is unknown unless it has proof that it is empty. With such proof it says
      so only of a recovery whose proof is an earlier supervisor's. */
  lemma ExitTellsProof(run: seq<System>, blind: Blindness, i: nat, p: Supervisor, b: Build)
    requires Run(run, blind) && Sighted(blind) && i + 1 < |run| && p in run[i].supervisors && p in run[i + 1].supervisors
    requires b in About(run[i].supervisors[p]) && run[i + 1].supervisors[p].Exited?
    ensures var e := run[i + 1].supervisors[p].ending;
            && (e.Finished? || e.Refused? ==> b in run[i + 1].proven)
            && (e.Finished? ==> run[i].supervisors[p] == ProvenEmpty(b))
            && (e.ContainmentUnknown? ==> b !in run[i + 1].proven || b in run[i].proven)
            && (e.ContainmentUnknown? ==> run[i + 1].file == run[i].file && !run[i].supervisors[p].ProvenEmpty?)
  {
    RunKeepsInv(run, blind, i);
    assert PhaseInv(run[i], run[i].supervisors[p]);
    assert Steps(run[i], run[i + 1], blind);
    var e :| Enabled(run[i], e, blind) && run[i + 1] == Do(run[i], e, blind);
    assert e.Acts? && e.p == p;
  }

  /** A supervisor that exits before it has a build at hand has changed no state file and
      sent no START; it says that a containment is unknown only of what it read, or of a
      child it could not prepare. */
  lemma EarlyExitLeavesState(run: seq<System>, blind: Blindness, i: nat, p: Supervisor)
    requires Run(run, blind) && i + 1 < |run| && p in run[i].supervisors && p in run[i + 1].supervisors
    requires Live(run[i].supervisors[p]) && About(run[i].supervisors[p]) == {} && run[i + 1].supervisors[p].Exited?
    ensures run[i + 1].file == run[i].file && run[i + 1].startSent == run[i].startSent && run[i + 1].proven == run[i].proven
    ensures run[i + 1].supervisors[p].ending.ContainmentUnknown? ==> run[i].supervisors[p].Found? || run[i].supervisors[p].Clear?
    ensures !run[i + 1].supervisors[p].ending.Finished?
  {
    assert Steps(run[i], run[i + 1], blind);
    var e :| Enabled(run[i], e, blind) && run[i + 1] == Do(run[i], e, blind);
    assert e.Acts? && e.p == p;
  }

  /** A state file disappears only at the hands of the lease holder that has proof that the
      build it names is empty; one that names no build never does. */
  lemma OnlyProvenRecordIsRemoved(run: seq<System>, blind: Blindness, i: nat) returns (p: Supervisor)
    requires Run(run, blind) && i + 1 < |run| && !run[i].file.Absent? && run[i + 1].file.Absent?
    ensures p in run[i].supervisors && run[i].file.Descriptor?
    ensures run[i].supervisors[p] == Recovered(run[i].file.build) || run[i].supervisors[p] == ProvenEmpty(run[i].file.build)
  {
    assert Steps(run[i], run[i + 1], blind);
    var e :| Enabled(run[i], e, blind) && run[i + 1] == Do(run[i], e, blind);
    p := e.p;
  }
}

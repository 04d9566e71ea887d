/** Supervision of isolated materialization workers, by any number of processes
    that come and go, with a failure or a crash possible at every step.

    A supervisor takes the worker lease, looks whether there is a state file, recovers
    what an earlier one left in it, prepares a contained child, persists its descriptor, only then
    sends START, and removes the state file only once the containment is proven
    empty. A build is named by the identity in its descriptor. */
module WorkerSupervision {
  import opened Basics

  type Supervisor = nat
  type Build = nat

  /** The state file; `Malformed` is anything a version-2 reader rejects. */
  datatype StateFile = Absent | Descriptor(build: Build) | Malformed

  /** Where the look for a state file may fail; a failed look reads as absent. */
  type Blindness = StateFile -> bool

  /** The look never misses a descriptor. */
  ghost predicate Sighted(blind: Blindness) {
    forall b :: !blind(Descriptor(b))
  }

  datatype Ending = Finished | Refused | ContainmentUnknown | Crashed

  datatype Phase =
    | Leased
    | Found
    | Recovering(b: Build)
    | Recovered(b: Build)
    | Clear
    | Prepared(b: Build)
    | PersistFailed(b: Build)
    | Persisted(b: Build)
    | StartSent(b: Build)
    | Supervising(b: Build)
    | TearingDown(b: Build)
    | ProvenEmpty(b: Build)
    | Exited(ending: Ending)

  /** `startSent`: builds whose START left a supervisor. `running`: builds whose
      guardian acted on it. `empty`: containments with no process left, for good.
      `proven`: those a supervisor has proof of. */
  datatype System = System(
    lease: Option<Supervisor>,
    file: StateFile,
    supervisors: map<Supervisor, Phase>,
    known: set<Build>,
    startSent: set<Build>,
    running: set<Build>,
    empty: set<Build>,
    proven: set<Build>)

  datatype Step =
    | AcquireStep
    | LookStep(found: bool)
    | ReadStateStep(inspected: bool, parsed: bool)
    | RecoverStep(isEmpty: bool)
    | RemoveRecoveredStep(removed: bool)
    | PrepareStep(b: Build)
    | PrepareFailsStep(b: Build, unknown: bool)
    | PersistStep(ok: bool, written: bool)
    | TeardownUnpersistedStep(isEmpty: bool)
    | SendStartStep
    | CancelBeforeStartStep
    | StartAnswerStep(ok: bool)
    | SupervisedStep(isEmpty: bool)
    | SupervisionFailsStep
    | TeardownStep(isEmpty: bool)
    | RemoveStateStep(removed: bool)
    | CancelStep
    | CrashStep

  datatype Event =
    | Acts(p: Supervisor, step: Step)
    | GuardianStarts(b: Build)
    | ContainmentEmpties(b: Build)

  predicate Live(ph: Phase) {
    !ph.Exited?
  }

  /** An answer "empty" is truthful, from a receipt, a probe or a teardown. */
  predicate Truthful(s: System, b: Build, isEmpty: bool) {
    isEmpty ==> b in s.empty
  }

  predicate StepEnabled(s: System, p: Supervisor, step: Step, blind: Blindness) {
    if step.AcquireStep? then p !in s.supervisors && s.lease.None?
    else
      p in s.supervisors && var ph := s.supervisors[p];
      match step
      case AcquireStep => false
      // `exists` answers yes only of a file, and no also when it cannot tell.
      case LookStep(found) => ph.Leased? && if found then !s.file.Absent? else s.file.Absent? || blind(s.file)
      case ReadStateStep(_, _) => ph.Found?
      case RecoverStep(isEmpty) => ph.Recovering? && Truthful(s, ph.b, isEmpty)
      case RemoveRecoveredStep(_) => ph.Recovered?
      case PrepareStep(b) => ph.Clear? && b !in s.known
      case PrepareFailsStep(b, _) => ph.Clear? && b !in s.known
      // A write reported as successful has happened; a failed one may have.
      case PersistStep(ok, written) => ph.Prepared? && (ok ==> written)
      case TeardownUnpersistedStep(isEmpty) => ph.PersistFailed? && Truthful(s, ph.b, isEmpty)
      case SendStartStep => ph.Persisted?
      case CancelBeforeStartStep => ph.Persisted?
      case StartAnswerStep(_) => ph.StartSent?
      case SupervisedStep(isEmpty) => ph.Supervising? && Truthful(s, ph.b, isEmpty)
      case SupervisionFailsStep => ph.Supervising?
      case TeardownStep(isEmpty) => ph.TearingDown? && Truthful(s, ph.b, isEmpty)
      case RemoveStateStep(_) => ph.ProvenEmpty?
      case CancelStep => ph.Leased? || ph.Found? || ph.Recovered? || ph.Clear?
      case CrashStep => Live(ph)
  }

  function To(s: System, p: Supervisor, ph: Phase): System {
    s.(supervisors := s.supervisors[p := ph],
       lease := if Live(ph) then s.lease else if s.lease == Some(p) then None else s.lease)
  }

  /** `remove_worker_state`: only a file that names the build is unlinked, and a
      failed unlink is ignored. */
  function Unlinked(file: StateFile, b: Build, removed: bool): StateFile {
    if file == Descriptor(b) && removed then Absent else file
  }

  function DoStep(s: System, p: Supervisor, step: Step, blind: Blindness): System
    requires StepEnabled(s, p, step, blind)
  {
    match step
    case AcquireStep => s.(lease := Some(p), supervisors := s.supervisors[p := Leased])
    case LookStep(found) => To(s, p, if found then Found else Clear)
    case ReadStateStep(inspected, parsed) =>
      if !inspected then To(s, p, Exited(Refused))
      else if !parsed || s.file.Malformed? then To(s, p, Exited(ContainmentUnknown))
      else if s.file.Absent? then To(s, p, Clear)
      else To(s, p, Recovering(s.file.build))
    case RecoverStep(isEmpty) =>
      var b := s.supervisors[p].b;
      if isEmpty then To(s, p, Recovered(b)).(proven := s.proven + {b})
      else To(s, p, Exited(ContainmentUnknown))
    case RemoveRecoveredStep(removed) =>
      To(s, p, Clear).(file := Unlinked(s.file, s.supervisors[p].b, removed))
    case PrepareStep(b) => To(s, p, Prepared(b)).(known := s.known + {b})
    case PrepareFailsStep(b, unknown) =>
      To(s, p, Exited(if unknown then ContainmentUnknown else Refused)).(known := s.known + {b})
    case PersistStep(ok, written) =>
      var b := s.supervisors[p].b;
      To(s, p, if ok then Persisted(b) else PersistFailed(b)).(file := if written then Descriptor(b) else s.file)
    case TeardownUnpersistedStep(isEmpty) =>
      var b := s.supervisors[p].b;
      if isEmpty then To(s, p, Exited(Refused)).(proven := s.proven + {b})
      else To(s, p, Exited(ContainmentUnknown))
    case SendStartStep =>
      var b := s.supervisors[p].b;
      To(s, p, StartSent(b)).(startSent := s.startSent + {b})
    case CancelBeforeStartStep => To(s, p, TearingDown(s.supervisors[p].b))
    case StartAnswerStep(ok) =>
      var b := s.supervisors[p].b;
      To(s, p, if ok then Supervising(b) else TearingDown(b))
    case SupervisedStep(isEmpty) =>
      var b := s.supervisors[p].b;
      if isEmpty then To(s, p, ProvenEmpty(b)).(proven := s.proven + {b})
      else To(s, p, Exited(ContainmentUnknown))
    case SupervisionFailsStep => To(s, p, TearingDown(s.supervisors[p].b))
    case TeardownStep(isEmpty) =>
      var b := s.supervisors[p].b;
      if isEmpty then To(s, p, ProvenEmpty(b)).(proven := s.proven + {b})
      else To(s, p, Exited(ContainmentUnknown))
    case RemoveStateStep(removed) =>
      To(s, p, Exited(Finished)).(file := Unlinked(s.file, s.supervisors[p].b, removed))
    case CancelStep => To(s, p, Exited(Refused))
    case CrashStep => To(s, p, Exited(Crashed))
  }

  predicate Enabled(s: System, e: Event, blind: Blindness) {
    match e
    case Acts(p, step) => StepEnabled(s, p, step, blind)
    // START may be delivered late, even after its sender crashed.
    case GuardianStarts(b) => b in s.startSent && b !in s.empty
    case ContainmentEmpties(b) => b in s.known
  }

  function Do(s: System, e: Event, blind: Blindness): System
    requires Enabled(s, e, blind)
  {
    match e
    case Acts(p, step) => DoStep(s, p, step, blind)
    case GuardianStarts(b) => s.(running := s.running + {b})
    case ContainmentEmpties(b) => s.(empty := s.empty + {b}, running := s.running - {b})
  }

  predicate Init(s: System) {
    s.lease.None? && s.supervisors == map[] && !s.file.Descriptor?
    && s.known == {} && s.startSent == {} && s.running == {} && s.empty == {} && s.proven == {}
  }

  ghost predicate Steps(s: System, t: System, blind: Blindness) {
    exists e: Event :: Enabled(s, e, blind) && t == Do(s, e, blind)
  }

  ghost predicate Run(run: seq<System>, blind: Blindness) {
    && run != [] && Init(run[0])
    && forall i :: 0 <= i < |run| - 1 ==> Steps(run[i], run[i + 1], blind)
  }

  // ------------------------------------------------------------------- invariant

  /** What the lease holder may rely on in each phase. */
  predicate PhaseInv(s: System, ph: Phase) {
    match ph
    case Leased => true
    case Found => true
    case Recovering(b) => s.file == Descriptor(b) && b in s.known
    case Recovered(b) => b in s.proven && s.startSent <= s.proven
    case Clear => s.startSent <= s.proven
    case Prepared(b) => s.startSent <= s.proven && b in s.known && b !in s.startSent
    case PersistFailed(b) => s.startSent <= s.proven && b in s.known && b !in s.startSent
    case Persisted(b) =>
      s.startSent <= s.proven && b in s.known && b !in s.startSent && s.file == Descriptor(b)
    case StartSent(b) => s.startSent <= s.proven + {b} && b in s.startSent && s.file == Descriptor(b)
    case Supervising(b) => s.startSent <= s.proven + {b} && b in s.startSent && s.file == Descriptor(b)
    case TearingDown(b) => s.startSent <= s.proven + {b} && b in s.known && s.file == Descriptor(b)
    case ProvenEmpty(b) => s.startSent <= s.proven && b in s.proven
    case Exited(_) => true
  }

  /** A START not yet proven harmless is on record in the state file. */
  predicate OnRecord(s: System) {
    forall b :: b in s.startSent && b !in s.proven ==> s.file == Descriptor(b)
  }

  predicate Inv(s: System) {
    && s.proven <= s.empty && s.startSent <= s.known && s.empty <= s.known
    && s.running <= s.startSent && s.running !! s.empty
    && (s.file.Descriptor? ==> s.file.build in s.known)
    && OnRecord(s)
    && (forall p :: p in s.supervisors && Live(s.supervisors[p]) ==> s.lease == Some(p))
    && (s.lease.Some? ==> s.lease.value in s.supervisors && Live(s.supervisors[s.lease.value]))
    && (forall p :: p in s.supervisors ==> PhaseInv(s, s.supervisors[p]))
  }

  lemma StepKeepsRecord(s: System, p: Supervisor, step: Step, blind: Blindness)
    requires Inv(s) && StepEnabled(s, p, step, blind) && Sighted(blind)
    ensures var t := DoStep(s, p, step, blind);
            && t.proven <= t.empty && t.startSent <= t.known && t.empty <= t.known
            && t.running <= t.startSent && t.running !! t.empty
            && (t.file.Descriptor? ==> t.file.build in t.known)
            && OnRecord(t)
  {
    if p in s.supervisors { assert PhaseInv(s, s.supervisors[p]); }
  }

  lemma StepKeepsPhase(s: System, p: Supervisor, step: Step, blind: Blindness)
    requires Inv(s) && StepEnabled(s, p, step, blind) && Sighted(blind)
    ensures var t := DoStep(s, p, step, blind);
            PhaseInv(t, t.supervisors[p])
  {
    if p in s.supervisors { assert PhaseInv(s, s.supervisors[p]); }
  }

  lemma StepMovesOnlyItsSupervisor(s: System, p: Supervisor, step: Step, blind: Blindness)
    requires Inv(s) && StepEnabled(s, p, step, blind) && Sighted(blind)
    ensures var t := DoStep(s, p, step, blind);
            && p in t.supervisors && t.supervisors == s.supervisors[p := t.supervisors[p]]
            && t.lease == if Live(t.supervisors[p]) then Some(p) else if s.lease == Some(p) then None else s.lease
  {
    hide PhaseInv, OnRecord;
  }

  lemma StepKeepsInv(s: System, p: Supervisor, step: Step, blind: Blindness)
    requires Inv(s) && StepEnabled(s, p, step, blind) && Sighted(blind)
    ensures Inv(DoStep(s, p, step, blind))
  {
    StepMovesOnlyItsSupervisor(s, p, step, blind);
    hide DoStep, OnRecord;
    var t := DoStep(s, p, step, blind);
    StepKeepsRecord(s, p, step, blind);
    StepKeepsPhase(s, p, step, blind);
    forall q | q in t.supervisors ensures PhaseInv(t, t.supervisors[q]) {
      if q != p { assert !Live(s.supervisors[q]); }
    }
  }

  lemma EventKeepsInv(s: System, e: Event, blind: Blindness)
    requires Inv(s) && Enabled(s, e, blind) && Sighted(blind)
    ensures Inv(Do(s, e, blind))
  {
    match e
    case Acts(p, step) => StepKeepsInv(s, p, step, blind);
    case GuardianStarts(_) =>
    case ContainmentEmpties(_) =>
  }

  lemma {:induction false} RunKeepsInv(run: seq<System>, blind: Blindness, i: nat)
    requires Run(run, blind) && Sighted(blind) && i < |run|
    ensures Inv(run[i])
  {
    if i > 0 {
      RunKeepsInv(run, blind, i - 1);
      assert Steps(run[i - 1], run[i - 1 + 1], blind);
      var e :| Enabled(run[i - 1], e, blind) && run[i] == Do(run[i - 1], e, blind);
      EventKeepsInv(run[i - 1], e, blind);
    }
  }

  // ---------------------------------------------------------------- main results

  /** A START leaves a supervisor only while the descriptor is in the state file
      and every earlier started containment is proven empty. */
  lemma StartOnlyOnRecord(run: seq<System>, blind: Blindness, i: nat, b: Build)
    requires Run(run, blind) && Sighted(blind) && i + 1 < |run| && b !in run[i].startSent && b in run[i + 1].startSent
    ensures run[i].file == Descriptor(b) && run[i + 1].file == Descriptor(b)
    ensures run[i].startSent <= run[i].proven && run[i].proven <= run[i].empty
  {
    RunKeepsInv(run, blind, i);
    assert Steps(run[i], run[i + 1], blind);
    var e :| Enabled(run[i], e, blind) && run[i + 1] == Do(run[i], e, blind);
    assert PhaseInv(run[i], run[i].supervisors[e.p]);
  }

  /** However late a START is delivered, the build it begins is on record and
      every other build ever started is proven empty. */
  lemma LateStartIsStillAlone(run: seq<System>, blind: Blindness, i: nat, b: Build)
    requires Run(run, blind) && Sighted(blind) && i + 1 < |run| && b !in run[i].running && b in run[i + 1].running
    ensures run[i].file == Descriptor(b)
    ensures forall c :: c in run[i].startSent && c != b ==> c in run[i].proven
  {
    RunKeepsInv(run, blind, i);
    assert Steps(run[i], run[i + 1], blind);
    var e :| Enabled(run[i], e, blind) && run[i + 1] == Do(run[i], e, blind);
    assert e == GuardianStarts(b);
  }

  /** Two started builds never run at the same time. */
  lemma BuildsNeverOverlap(run: seq<System>, blind: Blindness, i: nat, b: Build, c: Build)
    requires Run(run, blind) && Sighted(blind) && i < |run| && b in run[i].running && c in run[i].running
    ensures b == c
  {
    RunKeepsInv(run, blind, i);
    assert run[i].file == Descriptor(b) && run[i].file == Descriptor(c);
  }

  /** Whatever a supervisor does, fails at or crashes in, a build whose START was
      sent stays on record until its containment is proven empty. In particular
      every exit with containment unknown after START keeps the state file. */
  lemma StartedBuildStaysOnRecord(run: seq<System>, blind: Blindness, i: nat, b: Build)
    requires Run(run, blind) && Sighted(blind) && i < |run| && b in run[i].startSent && b !in run[i].proven
    ensures run[i].file == Descriptor(b)
  {
    RunKeepsInv(run, blind, i);
  }

  lemma UnknownExitKeepsState(run: seq<System>, blind: Blindness, i: nat, p: Supervisor, b: Build)
    requires Run(run, blind) && Sighted(blind) && i + 1 < |run| && p in run[i].supervisors && p in run[i + 1].supervisors
    requires run[i].supervisors[p] in {StartSent(b), Supervising(b), TearingDown(b)}
    requires run[i + 1].supervisors[p] in {Exited(ContainmentUnknown), Exited(Crashed)}
    ensures run[i + 1].file == Descriptor(b)
  {
    RunKeepsInv(run, blind, i);
    assert PhaseInv(run[i], run[i].supervisors[p]);
    assert Steps(run[i], run[i + 1], blind);
    var e :| Enabled(run[i], e, blind) && run[i + 1] == Do(run[i], e, blind);
    assert e.Acts? && e.p == p;
  }

  /** Once a build is proven empty it never runs again. */
  lemma {:induction false} ProvenStaysQuiet(run: seq<System>, blind: Blindness, i: nat, k: nat, b: Build)
    requires Run(run, blind) && Sighted(blind) && i <= k < |run| && b in run[i].proven
    ensures b in run[k].proven && b !in run[k].running
    decreases k
  {
    RunKeepsInv(run, blind, k);
    if i < k {
      ProvenStaysQuiet(run, blind, i, k - 1, b);
      assert Steps(run[k - 1], run[k - 1 + 1], blind);
      var e :| Enabled(run[k - 1], e, blind) && run[k] == Do(run[k - 1], e, blind);
    }
  }

  // --------------------------------------------------- what a blind look costs

  function Last(run: seq<System>): System
    requires run != []
  {
    run[|run| - 1]
  }

  lemma Extend(run: seq<System>, blind: Blindness, e: Event) returns (longer: seq<System>)
    requires Run(run, blind) && run != [] && Enabled(Last(run), e, blind)
    ensures Run(longer, blind) && longer != [] && Last(longer) == Do(Last(run), e, blind)
  {
    hide Enabled, Do, Init;
    longer := run + [Do(Last(run), e, blind)];
    forall i | 0 <= i < |longer| - 1 ensures Steps(longer[i], longer[i + 1], blind) {
      if i < |run| - 1 {
        assert Steps(run[i], run[i + 1], blind);
      } else {
        assert longer[i] == Last(run) && longer[i + 1] == Do(Last(run), e, blind);
      }
    }
  }

  /** A supervisor finds nothing on file, rightly or not. */
  lemma FindsNothing(run: seq<System>, blind: Blindness, p: Supervisor) returns (longer: seq<System>)
    requires Run(run, blind) && run != []
    requires var s := Last(run); s.lease.None? && p !in s.supervisors && (s.file.Absent? || blind(s.file))
    ensures Run(longer, blind) && longer != []
    ensures var s := Last(run); Last(longer) == s.(lease := Some(p), supervisors := s.supervisors[p := Clear])
  {
    hide Run;
    longer := Extend(run, blind, Acts(p, AcquireStep));
    longer := Extend(longer, blind, Acts(p, LookStep(false)));
    assert Last(run).supervisors[p := Leased][p := Clear] == Last(run).supervisors[p := Clear];
  }

  lemma PersistsBuild(run: seq<System>, blind: Blindness, p: Supervisor, c: Build) returns (longer: seq<System>)
    requires Run(run, blind) && run != []
    requires var s := Last(run); p in s.supervisors && s.supervisors[p].Clear? && c !in s.known
    ensures Run(longer, blind) && longer != []
    ensures var s := Last(run);
            Last(longer) == s.(file := Descriptor(c), supervisors := s.supervisors[p := Persisted(c)], known := s.known + {c})
  {
    hide Run;
    longer := Extend(run, blind, Acts(p, PrepareStep(c)));
    longer := Extend(longer, blind, Acts(p, PersistStep(true, true)));
    assert Last(run).supervisors[p := Prepared(c)][p := Persisted(c)] == Last(run).supervisors[p := Persisted(c)];
  }

  lemma StartsPersisted(run: seq<System>, blind: Blindness, p: Supervisor, c: Build) returns (longer: seq<System>)
    requires Run(run, blind) && run != []
    requires var s := Last(run); p in s.supervisors && s.supervisors[p] == Persisted(c) && c !in s.empty
    ensures Run(longer, blind) && longer != []
    ensures var s := Last(run);
            Last(longer) == s.(supervisors := s.supervisors[p := StartSent(c)], startSent := s.startSent + {c}, running := s.running + {c})
  {
    hide Run;
    longer := Extend(run, blind, Acts(p, SendStartStep));
    longer := Extend(longer, blind, GuardianStarts(c));
  }

  lemma StartsUnaware(run: seq<System>, blind: Blindness, p: Supervisor, c: Build) returns (longer: seq<System>)
    requires Run(run, blind) && run != []
    requires var s := Last(run); s.lease.None? && p !in s.supervisors && c !in s.known && c !in s.empty && (s.file.Absent? || blind(s.file))
    ensures Run(longer, blind) && longer != []
    ensures var s := Last(run);
            Last(longer) == s.(lease := Some(p), file := Descriptor(c), supervisors := s.supervisors[p := StartSent(c)],
                               known := s.known + {c}, startSent := s.startSent + {c}, running := s.running + {c})
  {
    hide Run, Last;
    longer := FindsNothing(run, blind, p);
    longer := PersistsBuild(longer, blind, p, c);
    longer := StartsPersisted(longer, blind, p, c);
    var before: map<Supervisor, Phase> := Last(run).supervisors;
    var cleared: map<Supervisor, Phase> := before[p := Clear];
    var persisted: map<Supervisor, Phase> := cleared[p := Persisted(c)];
    assert persisted[p := StartSent(c)] == before[p := StartSent(c)];
  }

  /** Blind to one descriptor, a second supervisor starts a build beside the first. */
  lemma BlindLookOverlaps(blind: Blindness, b: Build, c: Build) returns (run: seq<System>)
    requires blind(Descriptor(b)) && b != c
    ensures Run(run, blind) && run != [] && b in Last(run).running && c in Last(run).running
  {
    hide DoStep, StepEnabled;
    run := [System(None, Absent, map[], {}, {}, {}, {}, {})];
    run := StartsUnaware(run, blind, 0, b);
    run := CrashLast(run, blind, 0);
    run := StartsUnaware(run, blind, 1, c);
  }

  lemma CrashLast(run: seq<System>, blind: Blindness, p: Supervisor) returns (longer: seq<System>)
    requires Run(run, blind) && run != [] && p in Last(run).supervisors && Live(Last(run).supervisors[p]) && Last(run).lease == Some(p)
    ensures Run(longer, blind) && longer != []
    ensures var s := Last(run);
            Last(longer) == s.(lease := None, supervisors := s.supervisors[p := Exited(Crashed)])
  {
    hide Run;
    longer := Extend(run, blind, Acts(p, CrashStep));
  }

  /** No run overlaps two builds exactly when a failed look never reads as absent while
      a descriptor is on file. */
  lemma NoOverlapExactlyWhenSighted(blind: Blindness)
    ensures (forall run: seq<System>, i: nat, b: Build, c: Build ::
               Run(run, blind) && i < |run| && b in run[i].running && c in run[i].running ==> b == c)
            <==> Sighted(blind)
  {
    hide Run;
    if Sighted(blind) {
      forall run: seq<System>, i: nat, b: Build, c: Build |
        Run(run, blind) && i < |run| && b in run[i].running && c in run[i].running ensures b == c {
        BuildsNeverOverlap(run, blind, i, b, c);
      }
    } else {
      var b: Build :| blind(Descriptor(b));
      var run := BlindLookOverlaps(blind, b, b + 1);
      assert b in run[|run| - 1].running && b + 1 in run[|run| - 1].running;
    }
  }
}

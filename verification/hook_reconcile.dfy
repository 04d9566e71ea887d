/** Writing the hook files of several clients and the ownership record, with rollback. */
module HookReconcile {
  import opened Basics
  import opened AgentHooks
  import opened HookMerge
  import opened HookOwnership

  type Path = string
  type Text = string
  type FileMap = map<Path, Text>

  datatype Codec = Codec(parse: Text -> Option<Value>, render: Value -> Text)

  /** The change to the ownership record: which clients, and whether they are installed. */
  datatype Change = Change(clients: seq<Client>, install: bool)
  {
    function Ids(): seq<string> {
      seq(|clients|, i requires 0 <= i < |clients| => ClientId(clients[i]))
    }
  }

  datatype ReadResult = Found(text: Text) | Missing | Unreadable

  /** The files as other code sees them. Any operation may fail, and `faults` remembers
      on which paths; a failed replacement or removal may or may not have taken effect. */
  class Disk {
    var files: FileMap
    ghost var faults: set<Path>

    constructor (initial: FileMap)
      ensures files == initial && faults == {}
    {
      files := initial;
      faults := {};
    }

    method Read(path: Path) returns (r: ReadResult)
      modifies this`faults
      ensures r.Found? ==> path in files && r.text == files[path]
      ensures r.Missing? ==> path !in files
      ensures faults == old(faults) + (if r.Unreadable? then {path} else {})
    {
      var fails: bool := *;
      r := if fails then Unreadable else if path in files then Found(files[path]) else Missing;
      if fails { faults := faults + {path}; }
    }

    method Write(path: Path, text: Text) returns (ok: bool)
      modifies this
      ensures ok ==> files == old(files)[path := text]
      ensures !ok ==> files == old(files) || files == old(files)[path := text]
      ensures faults == old(faults) + (if ok then {} else {path})
    {
      var effective: bool;
      ok, effective := *, *;
      if ok || effective { files := files[path := text]; }
      if !ok { faults := faults + {path}; }
    }

    method Delete(path: Path) returns (ok: bool)
      modifies this
      ensures ok ==> files == old(files) - {path}
      ensures !ok ==> files == old(files) || files == old(files) - {path}
      ensures faults == old(faults) + (if ok then {} else {path})
    {
      var effective: bool;
      ok, effective := *, *;
      if ok || effective { files := files - {path}; }
      if !ok { faults := faults + {path}; }
    }

    /** Whether there is a file; a look that fails reads as no. */
    method Exists(path: Path) returns (there: bool)
      modifies this`faults
      ensures there ==> path in files
      ensures faults == old(faults) + (if path in files && !there then {path} else {})
    {
      var fails: bool := *;
      there := path in files && !fails;
      if path in files && !there { faults := faults + {path}; }
    }

    /** Put back what a snapshot holds: the old text, or no file at all. `missed` says that
        a file was overlooked. */
    method Restore(path: Path, previous: Option<Text>) returns (ok: bool, ghost missed: bool)
      modifies this
      ensures ok && !missed ==> At(files, path) == previous
      ensures missed ==> previous.None? && path in files
      ensures At(files, path) == previous || At(files, path) == old(At(files, path))
      ensures forall p :: p != path ==> At(files, p) == old(At(files, p))
      ensures faults == old(faults) + (if !ok || missed then {path} else {})
    {
      missed := false;
      match previous
      case Some(text) => ok := Write(path, text);
      case None =>
        ok := true;
        var there := Exists(path);
        missed := path in files && !there;
        if there { ok := Delete(path); }
    }
  }

  function At(files: FileMap, path: Path): Option<Text> {
    if path in files then Some(files[path]) else None
  }

  datatype Plan = Plan(path: Path, previous: Option<Text>, rendered: Value, changed: bool)

  // --------------------------------------------------------- what is planned and written

  /** A missing file reads as an empty object. */
  function Load(codec: Codec, files: FileMap, path: Path): Option<Value> {
    if path in files then codec.parse(files[path]) else Some(Obj(map[]))
  }

  function InstallPlan(codec: Codec, files: FileMap, path: Path, client: Client, setup: Setup): Option<Plan> {
    match Load(codec, files, path)
    case None => None
    case Some(existing) =>
      if !Mergeable(client, existing) then None
      else
        var rendered := MergedRoot(client, setup, existing);
        Some(Plan(path, At(files, path), rendered, rendered != existing))
  }

  predicate Planned(codec: Codec, files: FileMap, target: Client -> Path, clients: seq<Client>, setup: Setup, plans: seq<Plan>) {
    |plans| == |clients|
    && forall i :: 0 <= i < |plans| ==> InstallPlan(codec, files, target(clients[i]), clients[i], setup) == Some(plans[i])
  }

  /** The files once every changed plan is written, in order. */
  function Written(codec: Codec, files: FileMap, plans: seq<Plan>): FileMap {
    if plans == [] then files
    else
      var last := plans[|plans| - 1];
      var before := Written(codec, files, plans[..|plans| - 1]);
      if last.changed then before[last.path := codec.render(last.rendered)] else before
  }

  /** All plans and the ownership record. */
  function Committed(codec: Codec, files: FileMap, plans: seq<Plan>, config: Path, change: Change): Option<FileMap> {
    var written := Written(codec, files, plans);
    match Load(codec, written, config)
    case None => None
    case Some(payload) =>
      match Owned(payload, change.Ids(), change.install)
      case None => None
      case Some(owned) => Some(written[config := codec.render(owned)])
  }

  predicate Touched(plans: seq<Plan>, config: Path, path: Path) {
    path == config || exists i :: 0 <= i < |plans| && plans[i].path == path
  }

  // ------------------------------------------------------------------- the steps

  method LoadJson(disk: Disk, codec: Codec, path: Path) returns (r: Option<Value>)
    modifies disk`faults
    ensures r.Some? ==> Load(codec, disk.files, path) == r
    ensures old(disk.faults) <= disk.faults
    ensures disk.faults == {} ==> Load(codec, disk.files, path) == r
  {
    var text := disk.Read(path);
    match text
    case Found(t) => r := codec.parse(t);
    case Missing => r := Some(Obj(map[]));
    case Unreadable => r := None;
  }

  method WritePlans(disk: Disk, codec: Codec, plans: seq<Plan>, ghost config: Path) returns (ok: bool)
    modifies disk
    ensures ok ==> disk.files == Written(codec, old(disk.files), plans)
    ensures old(disk.faults) <= disk.faults && if ok then disk.faults == old(disk.faults) else disk.faults != {}
    ensures forall p :: !Touched(plans, config, p) ==> At(disk.files, p) == old(At(disk.files, p))
  {
    for i := 0 to |plans|
      invariant disk.files == Written(codec, old(disk.files), plans[..i]) && disk.faults == old(disk.faults)
      invariant forall p :: !Touched(plans, config, p) ==> At(disk.files, p) == old(At(disk.files, p))
    {
      assert plans[..i + 1][..i] == plans[..i];
      if plans[i].changed {
        ok := disk.Write(plans[i].path, codec.render(plans[i].rendered));
        assert Touched(plans, config, plans[i].path);
        if !ok { return; }
      }
    }
    assert plans[..|plans|] == plans;
    ok := true;
  }

  /** The setup file is an object whose record, if any, is one. */
  predicate TakesRecord(codec: Codec, files: FileMap, config: Path) {
    var loaded := Load(codec, files, config);
    && loaded.Some? && loaded.value.Obj?
    && ("agent_hooks" in loaded.value.fields ==> loaded.value.fields["agent_hooks"].Obj?)
  }

  method UpdateOwnership(disk: Disk, codec: Codec, config: Path, change: Change) returns (ok: bool)
    modifies disk
    ensures ok ==> TakesRecord(codec, old(disk.files), config)
    ensures old(disk.faults) <= disk.faults
    ensures disk.faults == {} ==> (ok <==> TakesRecord(codec, old(disk.files), config))
    ensures ok ==>
      var loaded := Load(codec, old(disk.files), config);
      && loaded.Some? && Owned(loaded.value, change.Ids(), change.install).Some?
      && disk.files == old(disk.files)[config := codec.render(Owned(loaded.value, change.Ids(), change.install).value)]
    ensures forall p :: p != config ==> At(disk.files, p) == old(At(disk.files, p))
  {
    hide InstalledAfter, InstalledIn, AsValue;
    var loaded := LoadJson(disk, codec, config);
    if loaded.None? { return false; }
    var payload := loaded.value;
    if !payload.Obj? { return false; }
    var record := RecordOf(payload);
    if !record.Obj? { return false; }
    var installed := UpdateInstalled(InstalledIn(record), change.Ids(), change.install);
    record := Obj(record.fields["format_version" := Num(1)]["policy" := Str("advisory")]["installed_clients" := AsValue(installed)]);
    ok := disk.Write(config, codec.render(Obj(payload.fields["agent_hooks" := record])));
  }

  /** The plans remember the files as they were, but for those in `misread`, which were
      there and are planned as absent. */
  predicate SnapshotsBut(files: FileMap, plans: seq<Plan>, misread: set<Path>) {
    && (forall i :: 0 <= i < |plans| ==> plans[i].path in misread || plans[i].previous == At(files, plans[i].path))
    && (forall p :: p in misread ==> p in files && exists i :: 0 <= i < |plans| && plans[i] == AbsentPlan(p))
  }

  function AbsentPlan(path: Path): Plan { Plan(path, None, Null, false) }

  /** Each plan has a file of its own, which is not the setup file. */
  predicate OwnPaths(plans: seq<Plan>, config: Path) {
    && (forall i, j :: 0 <= i < j < |plans| ==> plans[i].path != plans[j].path)
    && (forall i :: 0 <= i < |plans| ==> plans[i].path != config)
  }

  /** Restore every planned file, then the setup file, whatever fails on the way. What
      counts is what the plans remember: a file misread as absent is deleted. */
  method RollBack(disk: Disk, plans: seq<Plan>, config: Path, snapshot: Option<Text>, ghost before: FileMap, ghost misread: set<Path>)
    returns (failures: set<Path>, ghost missed: set<Path>)
    requires SnapshotsBut(before, plans, misread) && snapshot == At(before, config)
    requires forall p :: !Touched(plans, config, p) ==> At(disk.files, p) == At(before, p)
    modifies disk
    ensures forall p :: p !in failures + missed + misread ==> At(disk.files, p) == At(before, p)
    ensures OwnPaths(plans, config) && failures + missed == {} ==> disk.files == before - misread
    ensures forall p :: p in failures ==> Touched(plans, config, p)
    ensures disk.faults == old(disk.faults) + failures + missed
  {
    failures, missed := RestorePlans(disk, plans, config, before, misread);
    var ok, overlooked := disk.Restore(config, snapshot);
    if !ok { failures := failures + {config}; }
    if overlooked { missed := missed + {config}; }
    if OwnPaths(plans, config) && failures + missed == {} {
      RestoredFiles(disk.files, plans, config, before, misread);
    }
  }

  method RestorePlans(disk: Disk, plans: seq<Plan>, ghost config: Path, ghost before: FileMap, ghost misread: set<Path>)
    returns (failures: set<Path>, ghost missed: set<Path>)
    requires SnapshotsBut(before, plans, misread)
    requires forall p :: !Touched(plans, config, p) ==> At(disk.files, p) == At(before, p)
    modifies disk
    ensures forall p :: !Touched(plans, config, p) ==> At(disk.files, p) == At(before, p)
    ensures RestoredBut(disk.files, plans, before, failures + missed, misread)
    ensures OwnPaths(plans, config) ==> AsPlannedBut(disk.files, plans, failures + missed)
    ensures forall p :: p in failures ==> Touched(plans, config, p)
    ensures disk.faults == old(disk.faults) + failures + missed
  {
    failures, missed := {}, {};
    for i := 0 to |plans|
      invariant forall p :: !Touched(plans, config, p) ==> At(disk.files, p) == At(before, p)
      invariant RestoredBut(disk.files, plans[..i], before, failures + missed, misread)
      invariant OwnPaths(plans, config) ==> AsPlannedBut(disk.files, plans[..i], failures + missed)
      invariant forall p :: p in failures ==> Touched(plans, config, p)
      invariant disk.faults == old(disk.faults) + failures + missed
    {
      ghost var files, bad := disk.files, failures + missed;
      var ok, overlooked := disk.Restore(plans[i].path, plans[i].previous);
      assert Touched(plans, config, plans[i].path);
      if !ok { failures := failures + {plans[i].path}; }
      if overlooked { missed := missed + {plans[i].path}; }
      assert plans[..i + 1] == plans[..i] + [plans[i]];
      RestoredNext(files, disk.files, plans[..i], plans[i], before, bad, failures + missed, misread);
      if OwnPaths(plans, config) { AsPlannedNext(files, disk.files, plans[..i], plans[i], bad, failures + missed); }
    }
    assert plans[..|plans|] == plans;
  }

  /** The planned files are back, but for those in `bad` and `misread`. */
  predicate RestoredBut(files: FileMap, plans: seq<Plan>, before: FileMap, bad: set<Path>, misread: set<Path>) {
    forall i :: 0 <= i < |plans| && plans[i].path !in bad && plans[i].path !in misread ==> At(files, plans[i].path) == At(before, plans[i].path)
  }

  /** The planned files are what the plans remember, but for those in `bad`. */
  predicate AsPlannedBut(files: FileMap, plans: seq<Plan>, bad: set<Path>) {
    forall i :: 0 <= i < |plans| && plans[i].path !in bad ==> At(files, plans[i].path) == plans[i].previous
  }

  /** One restore: only its file changes, to what the plan remembers or not at all. */
  predicate OneRestored(files: FileMap, after: FileMap, plan: Plan, bad: set<Path>) {
    && (forall p :: p != plan.path && p in files.Keys + after.Keys ==> At(after, p) == At(files, p))
    && (At(after, plan.path) == plan.previous || (plan.path in bad && At(after, plan.path) == At(files, plan.path)))
  }

  lemma RestoredNext(files: FileMap, after: FileMap, plans: seq<Plan>, plan: Plan, before: FileMap, bad: set<Path>, worse: set<Path>, misread: set<Path>)
    requires RestoredBut(files, plans, before, bad, misread) && bad <= worse && OneRestored(files, after, plan, worse)
    requires plan.path in misread || plan.previous == At(before, plan.path)
    ensures RestoredBut(after, plans + [plan], before, worse, misread)
  {
    forall i | 0 <= i < |plans + [plan]| && (plans + [plan])[i].path !in worse && (plans + [plan])[i].path !in misread
      ensures At(after, (plans + [plan])[i].path) == At(before, (plans + [plan])[i].path) {
      if i < |plans| { assert (plans + [plan])[i] == plans[i]; }
    }
  }

  lemma AsPlannedNext(files: FileMap, after: FileMap, plans: seq<Plan>, plan: Plan, bad: set<Path>, worse: set<Path>)
    requires AsPlannedBut(files, plans, bad) && bad <= worse && OneRestored(files, after, plan, worse)
    requires forall i :: 0 <= i < |plans| ==> plans[i].path != plan.path
    ensures AsPlannedBut(after, plans + [plan], worse)
  {}

  lemma RestoredFiles(files: FileMap, plans: seq<Plan>, config: Path, before: FileMap, misread: set<Path>)
    requires SnapshotsBut(before, plans, misread) && OwnPaths(plans, config)
    requires forall i :: 0 <= i < |plans| ==> At(files, plans[i].path) == plans[i].previous
    requires forall p :: p !in misread ==> At(files, p) == At(before, p)
    ensures files == before - misread
  {
    forall p ensures At(files, p) == At(before - misread, p) {
      if p in misread {
        var i :| 0 <= i < |plans| && plans[i] == AbsentPlan(p);
        assert At(files, plans[i].path) == None;
      }
    }
    SameFiles(files, before - misread);
  }

  /** `Refused` before anything was written, `RolledBack` after a failed write. */
  datatype Outcome = Done(plans: seq<Plan>) | Refused | RolledBack(unrestored: set<Path>)

  /** Write all plans and the ownership record, or put every file back. A rollback in
      which everything goes well restores the files exactly when none was misread. */
  method Commit(disk: Disk, codec: Codec, plans: seq<Plan>, config: Path, snapshot: Option<Text>, change: Change, ghost misread: set<Path>)
    returns (r: Outcome, ghost missed: set<Path>)
    requires SnapshotsBut(disk.files, plans, misread) && snapshot == At(disk.files, config)
    modifies disk
    ensures r.Done? || r.RolledBack?
    ensures r.Done? ==> r.plans == plans && Committed(codec, old(disk.files), plans, config, change) == Some(disk.files)
    ensures r.RolledBack? ==> forall p :: p !in r.unrestored + missed + misread ==> At(disk.files, p) == old(At(disk.files, p))
    ensures r.RolledBack? && OwnPaths(plans, config) && r.unrestored + missed == {} ==>
              disk.files == old(disk.files) - misread && (disk.files == old(disk.files) <==> misread == {})
    ensures r.RolledBack? ==> forall p :: p in r.unrestored ==> Touched(plans, config, p)
    ensures old(disk.faults) <= disk.faults
    ensures disk.faults == {} ==> (r.Done? <==> Committed(codec, old(disk.files), plans, config, change).Some?)
    ensures r.RolledBack? ==> r.unrestored + missed <= disk.faults
  {
    hide Owned;
    ghost var before := disk.files;
    missed := {};
    var ok := WritePlans(disk, codec, plans, config);
    CommittedExactly(codec, before, plans, config, change);
    if ok { ok := UpdateOwnership(disk, codec, config, change); }
    if !ok {
      var failures;
      failures, missed := RollBack(disk, plans, config, snapshot, before, misread);
      LessExactly(before, misread);
      return RolledBack(failures), missed;
    }
    r := Done(plans);
  }

  lemma CommittedExactly(codec: Codec, files: FileMap, plans: seq<Plan>, config: Path, change: Change)
    ensures Committed(codec, files, plans, config, change).Some? <==> TakesRecord(codec, Written(codec, files, plans), config)
  {
    hide NewRecord, Written;
  }

  lemma LessExactly(files: FileMap, misread: set<Path>)
    requires misread <= files.Keys
    ensures files - misread == files <==> misread == {}
  {
    if p :| p in misread { assert p in files && p !in files - misread; }
  }

  lemma SameFiles(a: FileMap, b: FileMap)
    requires forall p :: At(a, p) == At(b, p)
    ensures a == b
  {
    forall p ensures p in a <==> p in b { assert At(a, p) == At(b, p); }
    forall p | p in a ensures a[p] == b[p] { assert At(a, p) == At(b, p); }
  }

  /** Every client's file loads and can be merged into. */
  ghost predicate AllMerge(codec: Codec, files: FileMap, target: Client -> Path, clients: seq<Client>) {
    forall i :: 0 <= i < |clients| ==>
      var existing := Load(codec, files, target(clients[i]));
      existing.Some? && Mergeable(clients[i], existing.value)
  }

  /** No client's file is the setup file. */
  predicate AwayFrom(target: Client -> Path, clients: seq<Client>, config: Path) {
    forall i :: 0 <= i < |clients| ==> target(clients[i]) != config
  }

  /** Install the handlers of every selected client: all files and the ownership record
      change, or (when every restore succeeds and overlooks nothing) none does. A setup
      file that cannot be read, or that names another repository root, is refused first.
      If nothing fails on the disk, it is done exactly when every client's file can be
      merged into and the setup file takes the record. */
  method Reconcile(disk: Disk, codec: Codec, target: Client -> Path, config: Path, clients: seq<Client>, setup: Setup,
                   rootMatches: bool, dryRun: bool)
    returns (r: Outcome, ghost missed: set<Path>)
    modifies disk
    ensures r.Done? ==> rootMatches && Planned(codec, old(disk.files), target, clients, setup, r.plans)
    ensures r.Done? && !dryRun ==> Committed(codec, old(disk.files), r.plans, config, Change(clients, true)) == Some(disk.files)
    ensures r.Refused? ==> disk.files == old(disk.files)
    ensures r.RolledBack? ==> forall p :: p !in r.unrestored + missed ==> At(disk.files, p) == old(At(disk.files, p))
    ensures r.RolledBack? && r.unrestored + missed == {} ==> disk.files == old(disk.files)
    ensures r.RolledBack? ==> r.unrestored + missed <= disk.faults
    ensures dryRun ==> disk.files == old(disk.files) && !r.RolledBack?
    ensures disk.faults == {} ==> (r.Refused? <==> !(rootMatches && AllMerge(codec, old(disk.files), target, clients)))
    ensures disk.faults == {} && AwayFrom(target, clients, config) ==>
              (r.RolledBack? <==> !r.Refused? && !dryRun && !TakesRecord(codec, old(disk.files), config))
    ensures disk.faults == {} && r.RolledBack? ==> disk.files == old(disk.files)
  {
    hide Mergeable, MergedRoot;
    missed := {};
    if !rootMatches { return Refused, missed; }
    var snapshot := disk.Read(config);
    if snapshot.Unreadable? { return Refused, missed; }
    var plans: seq<Plan> := [];
    for i := 0 to |clients|
      invariant disk.files == old(disk.files)
      invariant Planned(codec, disk.files, target, clients[..i], setup, plans)
      invariant forall j :: 0 <= j < i ==> var v := Load(codec, disk.files, target(clients[j])); v.Some? && Mergeable(clients[j], v.value)
    {
      var path := target(clients[i]);
      var previous := disk.Read(path);
      if previous.Unreadable? { return Refused, missed; }
      var existing := LoadJson(disk, codec, path);
      if existing.None? { return Refused, missed; }
      var merged := MergeHooks(clients[i], existing.value, setup);
      if merged.Err? { return Refused, missed; }
      var kept := if previous.Found? then Some(previous.text) else None;
      plans := plans + [Plan(path, kept, merged.root, merged.root != existing.value)];
    }
    assert clients[..|clients|] == clients;
    r := Done(plans);
    if !dryRun {
      PlansAreSnapshots(codec, disk.files, target, clients, setup, plans);
      if AwayFrom(target, clients, config) { RecordedWhenTaken(codec, disk.files, plans, config, Change(clients, true)); }
      r, missed := Commit(disk, codec, plans, config, if snapshot.Found? then Some(snapshot.text) else None, Change(clients, true), {});
      if r.RolledBack? && r.unrestored + missed == {} { SameFiles(disk.files, old(disk.files)); }
    }
  }

  lemma RecordedWhenTaken(codec: Codec, files: FileMap, plans: seq<Plan>, config: Path, change: Change)
    requires forall i :: 0 <= i < |plans| ==> plans[i].path != config
    ensures Committed(codec, files, plans, config, change).Some? <==> TakesRecord(codec, files, config)
  {
    CommittedExactly(codec, files, plans, config, change);
    UntouchedStays(codec, files, plans, config);
  }

  lemma PlansAreSnapshots(codec: Codec, files: FileMap, target: Client -> Path, clients: seq<Client>, setup: Setup, plans: seq<Plan>)
    requires Planned(codec, files, target, clients, setup, plans)
    ensures SnapshotsBut(files, plans, {})
  {
    hide Mergeable, MergedRoot;
  }

  // ------------------------------------------------------- installing twice

  lemma {:induction false} WrittenAt(codec: Codec, files: FileMap, plans: seq<Plan>, i: nat)
    requires i < |plans|
    requires forall j, k :: 0 <= j < |plans| && 0 <= k < |plans| && plans[j].path == plans[k].path ==> plans[j] == plans[k]
    ensures At(Written(codec, files, plans), plans[i].path)
         == if plans[i].changed then Some(codec.render(plans[i].rendered)) else At(files, plans[i].path)
    decreases |plans|
  {
    var n := |plans| - 1;
    if plans[n].path == plans[i].path {
      if !plans[n].changed { UnchangedStays(codec, files, plans[..n], plans[i]); }
    } else {
      WrittenAt(codec, files, plans[..n], i);
    }
  }

  lemma {:induction false} UnchangedStays(codec: Codec, files: FileMap, plans: seq<Plan>, plan: Plan)
    requires !plan.changed
    requires forall j :: 0 <= j < |plans| && plans[j].path == plan.path ==> plans[j] == plan
    ensures At(Written(codec, files, plans), plan.path) == At(files, plan.path)
    decreases |plans|
  {
    if plans != [] { UnchangedStays(codec, files, plans[..|plans| - 1], plan); }
  }

  /** What a successful installation leaves in a client's file. */
  lemma InstalledFile(codec: Codec, files: FileMap, target: Client -> Path, config: Path,
                      clients: seq<Client>, setup: Setup, plans: seq<Plan>, i: nat)
    requires Sane(codec, target, config) && i < |clients|
    ensures Planned(codec, files, target, clients, setup, plans) && Committed(codec, files, plans, config, Change(clients, true)).Some? ==>
              var existing := Load(codec, files, target(clients[i]));
              && existing.Some? && Mergeable(clients[i], existing.value)
              && Load(codec, Committed(codec, files, plans, config, Change(clients, true)).value, target(clients[i]))
                 == Some(MergedRoot(clients[i], setup, existing.value))
  {
    hide Mergeable, MergedRoot;
    if Planned(codec, files, target, clients, setup, plans) && Committed(codec, files, plans, config, Change(clients, true)).Some? {
      var path := target(clients[i]);
      var after := Committed(codec, files, plans, config, Change(clients, true)).value;
      WrittenAt(codec, files, plans, i);
      assert At(after, path) == At(Written(codec, files, plans), path);
    }
  }

  /** Texts read back as they were written; clients have files of their own, none of which
      is the setup file. */
  ghost predicate Sane(codec: Codec, target: Client -> Path, config: Path) {
    && (forall v :: codec.parse(codec.render(v)) == Some(v))
    && (forall c, d :: target(c) == target(d) ==> c == d)
    && (forall c :: target(c) != config)
  }

  /** After a successful installation, the same installation plans no change. */
  lemma SecondInstallIsUnchanged(codec: Codec, files: FileMap, target: Client -> Path, config: Path,
                                 clients: seq<Client>, setup: Setup, plans: seq<Plan>)
    requires Sane(codec, target, config)
    ensures Planned(codec, files, target, clients, setup, plans) && Committed(codec, files, plans, config, Change(clients, true)).Some? ==>
              forall i :: 0 <= i < |clients| ==>
                var after := Committed(codec, files, plans, config, Change(clients, true)).value;
                var plan := InstallPlan(codec, after, target(clients[i]), clients[i], setup);
                plan.Some? && !plan.value.changed
  {
    hide Mergeable, MergedRoot;
    if Planned(codec, files, target, clients, setup, plans) && Committed(codec, files, plans, config, Change(clients, true)).Some? {
      var after := Committed(codec, files, plans, config, Change(clients, true)).value;
      forall i | 0 <= i < |clients|
        ensures var plan := InstallPlan(codec, after, target(clients[i]), clients[i], setup);
                plan.Some? && !plan.value.changed
      {
        InstalledFile(codec, files, target, config, clients, setup, plans, i);
        MergeOverwrites(clients[i], setup, setup, Load(codec, files, target(clients[i])).value);
      }
    }
  }

  /** A successful installation records the old clients and the installed ones. */
  lemma InstallationIsRecorded(codec: Codec, files: FileMap, plans: seq<Plan>, config: Path, change: Change)
    requires forall v :: codec.parse(codec.render(v)) == Some(v)
    requires forall i :: 0 <= i < |plans| ==> plans[i].path != config
    requires Committed(codec, files, plans, config, change).Some?
    ensures var before, after := Load(codec, files, config), Load(codec, Committed(codec, files, plans, config, change).value, config);
            && before.Some? && after.Some?
            && forall name :: name in InstalledIn(RecordOf(after.value)) <==>
                 if change.install then name in InstalledIn(RecordOf(before.value)) || name in change.Ids()
                 else name in InstalledIn(RecordOf(before.value)) && name !in change.Ids()
  {
    hide Owned, InstalledIn, InstalledAfter;
    UntouchedStays(codec, files, plans, config);
    var before := Load(codec, files, config).value;
    OwnedRecords(before, change.Ids(), change.install);
    InstalledAfterIs(InstalledIn(RecordOf(before)), change.Ids(), change.install);
  }

  lemma {:induction false} UntouchedStays(codec: Codec, files: FileMap, plans: seq<Plan>, path: Path)
    requires forall i :: 0 <= i < |plans| ==> plans[i].path != path
    ensures Load(codec, Written(codec, files, plans), path) == Load(codec, files, path)
    decreases |plans|
  {
    if plans != [] { UntouchedStays(codec, files, plans[..|plans| - 1], path); }
  }

  // ------------------------------------------------------------------- removal

  function RemovalPlan(codec: Codec, files: FileMap, path: Path): Option<Plan> {
    if path !in files then Some(AbsentPlan(path))
    else
      match codec.parse(files[path])
      case None => None
      case Some(existing) => Some(Plan(path, At(files, path), Removed(existing), RemovalReports(existing)))
  }

  /** A file in `misread` was taken for absent. */
  predicate RemovalPlanned(codec: Codec, files: FileMap, target: Client -> Path, clients: seq<Client>, plans: seq<Plan>, misread: set<Path>) {
    |plans| == |clients|
    && forall i :: 0 <= i < |plans| ==>
         || RemovalPlan(codec, files, target(clients[i])) == Some(plans[i])
         || (target(clients[i]) in misread && plans[i] == AbsentPlan(target(clients[i])))
  }

  /** Every client has a file of its own, which is not the setup file. */
  predicate OwnTargets(target: Client -> Path, clients: seq<Client>, config: Path) {
    && (forall i, j :: 0 <= i < j < |clients| ==> target(clients[i]) != target(clients[j]))
    && AwayFrom(target, clients, config)
  }

  /** Every client's file is absent or can be parsed. */
  ghost predicate AllLoad(codec: Codec, files: FileMap, target: Client -> Path, clients: seq<Client>) {
    forall i :: 0 <= i < |clients| ==> Load(codec, files, target(clients[i])).Some?
  }

  /** Remove the handlers of every selected client. A refusal touches no file. A rollback
      in which everything goes well deletes the files that a failed look took for absent,
      so it restores all files exactly when there was no such look. If nothing fails on
      the disk, it is done exactly when every client's file loads and the setup file takes
      the record. */
  method RemoveAgentHooks(disk: Disk, codec: Codec, target: Client -> Path, config: Path, clients: seq<Client>,
                          rootMatches: bool, dryRun: bool)
    returns (r: Outcome, ghost misread: set<Path>, ghost missed: set<Path>)
    modifies disk
    ensures r.Done? ==> rootMatches && RemovalPlanned(codec, old(disk.files), target, clients, r.plans, misread)
    ensures r.Done? && !dryRun ==> Committed(codec, old(disk.files), r.plans, config, Change(clients, false)) == Some(disk.files)
    ensures r.Refused? ==> disk.files == old(disk.files)
    ensures r.RolledBack? ==> forall p :: p !in r.unrestored + missed + misread ==> At(disk.files, p) == old(At(disk.files, p))
    ensures r.RolledBack? && OwnTargets(target, clients, config) && r.unrestored + missed == {} ==>
              disk.files == old(disk.files) - misread && (disk.files == old(disk.files) <==> misread == {})
    ensures misread <= disk.faults && forall p :: p in misread ==> p in old(disk.files)
    ensures r.RolledBack? ==> r.unrestored + missed <= disk.faults
    ensures dryRun ==> disk.files == old(disk.files) && !r.RolledBack?
    ensures disk.faults == {} ==> (r.Refused? <==> !(rootMatches && AllLoad(codec, old(disk.files), target, clients)))
    ensures disk.faults == {} && AwayFrom(target, clients, config) ==>
              (r.RolledBack? <==> !r.Refused? && !dryRun && !TakesRecord(codec, old(disk.files), config))
    ensures disk.faults == {} && r.RolledBack? ==> forall p :: At(disk.files, p) == old(At(disk.files, p))
  {
    misread, missed := {}, {};
    if !rootMatches { return Refused, misread, missed; }
    var snapshot := disk.Read(config);
    if snapshot.Unreadable? { return Refused, misread, missed; }
    var planned;
    planned, misread := PlanRemovals(disk, codec, target, clients);
    if planned.None? { return Refused, misread, missed; }
    var plans := planned.value;
    r := Done(plans);
    if !dryRun {
      if AwayFrom(target, clients, config) { RecordedWhenTaken(codec, disk.files, plans, config, Change(clients, false)); }
      hide SnapshotsBut, RemovalPlan, Committed, TakesRecord;
      r, missed := Commit(disk, codec, plans, config, if snapshot.Found? then Some(snapshot.text) else None, Change(clients, false), misread);
    }
  }

  /** Reads and cleans every client's file; none if one cannot be read or parsed. */
  method PlanRemovals(disk: Disk, codec: Codec, target: Client -> Path, clients: seq<Client>)
    returns (planned: Option<seq<Plan>>, ghost misread: set<Path>)
    modifies disk`faults
    ensures old(disk.faults) <= disk.faults
    ensures planned.Some? ==>
              && RemovalPlanned(codec, disk.files, target, clients, planned.value, misread)
              && SnapshotsBut(disk.files, planned.value, misread)
              && forall j :: 0 <= j < |clients| ==> planned.value[j].path == target(clients[j])
    ensures misread <= disk.faults && forall p :: p in misread ==> p in disk.files
    ensures disk.faults == {} ==> (planned.Some? <==> AllLoad(codec, disk.files, target, clients))
  {
    hide Removed, RemovalReports, SnapshotsBut;
    misread := {};
    var plans: seq<Plan> := [];
    assert SnapshotsBut(disk.files, plans, misread) by { NothingPlanned(disk.files); }
    for i := 0 to |clients|
      invariant old(disk.faults) <= disk.faults
      invariant misread <= disk.faults && forall p :: p in misread ==> p in disk.files
      invariant |plans| == i && forall j :: 0 <= j < i ==> plans[j].path == target(clients[j])
      invariant SnapshotsBut(disk.files, plans, misread)
      invariant RemovalPlanned(codec, disk.files, target, clients[..i], plans, misread)
      invariant disk.faults == {} ==> forall j :: 0 <= j < i ==> Load(codec, disk.files, target(clients[j])).Some?
    {
      var path := target(clients[i]);
      var there := disk.Exists(path);
      if !there {
        ghost var more := if path in disk.files then misread + {path} else misread;
        PlanAbsent(disk.files, plans, misread, more, path);
        misread := more;
        plans := plans + [AbsentPlan(path)];
      } else {
        var previous := disk.Read(path);
        if !previous.Found? { return None, misread; }
        var existing := LoadJson(disk, codec, path);
        if existing.None? { return None, misread; }
        var value, changed := RemoveHooks(existing.value);
        PlanMore(disk.files, plans, misread, Plan(path, Some(previous.text), value, changed));
        plans := plans + [Plan(path, Some(previous.text), value, changed)];
      }
    }
    assert clients[..|clients|] == clients;
    planned := Some(plans);
  }

  lemma NothingPlanned(files: FileMap)
    ensures SnapshotsBut(files, [], {})
  {}

  lemma PlanMore(files: FileMap, plans: seq<Plan>, misread: set<Path>, plan: Plan)
    requires SnapshotsBut(files, plans, misread) && plan.previous == At(files, plan.path)
    ensures SnapshotsBut(files, plans + [plan], misread)
  {
    forall p | p in misread ensures exists i :: 0 <= i < |plans + [plan]| && (plans + [plan])[i] == AbsentPlan(p) {
      var i :| 0 <= i < |plans| && plans[i] == AbsentPlan(p);
      assert (plans + [plan])[i] == plans[i];
    }
  }

  lemma PlanAbsent(files: FileMap, plans: seq<Plan>, misread: set<Path>, more: set<Path>, path: Path)
    requires SnapshotsBut(files, plans, misread) && more == if path in files then misread + {path} else misread
    ensures SnapshotsBut(files, plans + [AbsentPlan(path)], more)
  {
    var all := plans + [AbsentPlan(path)];
    forall p | p in more ensures exists i :: 0 <= i < |all| && all[i] == AbsentPlan(p) {
      if p in misread {
        var i :| 0 <= i < |plans| && plans[i] == AbsentPlan(p);
        assert all[i] == plans[i];
      } else {
        assert all[|plans|] == AbsentPlan(p);
      }
    }
  }

  /** A removal planned right after an installation would restore the original file
      exactly when its `hooks` was absent or an object and its events were tidy. */
  lemma RemovalUndoesInstall(codec: Codec, files: FileMap, target: Client -> Path, config: Path,
                             clients: seq<Client>, setup: Setup, plans: seq<Plan>, i: nat)
    requires Sane(codec, target, config) && i < |clients|
    ensures Planned(codec, files, target, clients, setup, plans) && Committed(codec, files, plans, config, Change(clients, true)).Some? ==>
              var original := Load(codec, files, target(clients[i])).value;
              var plan := RemovalPlan(codec, Committed(codec, files, plans, config, Change(clients, true)).value, target(clients[i]));
              && plan.Some? && plan.value.changed && original.Obj?
              && (Restores(clients[i], original, plan.value.rendered) <==> HooksAreKept(original) && TidyEvents(HooksOf(original)))
  {
    hide MergedRoot, Restores, HooksAreKept, TidyEvents, Removed, RemovalReports;
    InstalledFile(codec, files, target, config, clients, setup, plans, i);
    if !(Planned(codec, files, target, clients, setup, plans) && Committed(codec, files, plans, config, Change(clients, true)).Some?) { return; }
    var original := Load(codec, files, target(clients[i])).value;
    InstallThenRemove(clients[i], setup, original);
    var after := Committed(codec, files, plans, config, Change(clients, true)).value;
    if target(clients[i]) !in after { AbsentReportsNothing(); }
  }

  lemma AbsentReportsNothing()
    ensures !RemovalReports(Obj(map[]))
  {}
}

/** What a refresh rebuilds: the difference between the scanned sources and the manifest. */
module ManifestDiff {
  import opened Basics
  import opened TextOrder

  type Path = string

  datatype Snapshot = Snapshot(contentHash: string, language: Option<string>)

  datatype Entry = Entry(contentHash: string, language: string, artifactKey: Option<string>)

  datatype Manifest = Manifest(
    schemaVersion: nat, ontology: string, parserVersion: string, buildDigest: Option<string>, files: map<Path, Entry>)

  /** `digest` is the compatibility digest of the request, if it could be computed. */
  datatype Request = Request(
    mode: string, schemaVersion: nat, ontology: string, parserVersion: string, digest: Option<string>, previous: Option<Manifest>)

  datatype Diff = Diff(added: seq<Path>, modified: seq<Path>, same: seq<Path>, deleted: seq<Path>, forceRebuild: bool)

  // ------------------------------------------------------------- ordered key lists

  /** The keys of an ordered map, as its iteration gives them. */
  ghost predicate Enumerates(paths: seq<Path>, keys: set<Path>) {
    Increasing(paths) && forall p :: p in paths <==> p in keys
  }

  lemma AppendIncreases(list: seq<Path>, paths: seq<Path>, i: nat)
    requires Increasing(paths) && i < |paths| && Increasing(list) && forall p :: p in list ==> p in paths[..i]
    ensures Increasing(list + [paths[i]])
  {
    hide Before;
    forall k | 0 <= k < |list| ensures Before(list[k], paths[i]) {
      assert list[k] in paths[..i];
    }
  }

  predicate Distinct(list: seq<Path>) {
    forall i, j :: 0 <= i < j < |list| ==> list[i] != list[j]
  }

  lemma IncreasingIsDistinct(list: seq<Path>)
    requires Increasing(list)
    ensures Distinct(list)
  {
    hide TextLeq;
    forall i, j | 0 <= i < j < |list| ensures list[i] != list[j] { assert Before(list[i], list[j]); }
  }

  lemma DistinctConcat(a: seq<Path>, b: seq<Path>)
    requires Distinct(a) && Distinct(b) && forall p :: p in a ==> p !in b
    ensures Distinct(a + b)
  {
    forall i, j | 0 <= i < j < |a + b| ensures (a + b)[i] != (a + b)[j] {
      if i < |a| <= j { assert a[i] in a && b[j - |a|] in b; }
    }
  }

  // --------------------------------------------------------------- what is compared

  datatype Print = Print(contentHash: string, language: string)

  function SnapshotPrint(s: Snapshot): Print {
    Print(s.contentHash, if s.language.Some? then s.language.value else "")
  }

  function EntryPrint(e: Entry): Print {
    Print(e.contentHash, e.language)
  }

  function FullBuild(supported: map<Path, Snapshot>): map<Path, Print> {
    map p | p in supported :: SnapshotPrint(supported[p])
  }

  function Recorded(files: map<Path, Entry>): map<Path, Print> {
    map p | p in files :: EntryPrint(files[p])
  }

  // ------------------------------------------------------- when everything is rebuilt

  predicate RequiresFullSourceRebuild(r: Request) {
    r.previous.None?
    || r.previous.value.buildDigest != r.digest
    || exists p :: p in r.previous.value.files && LacksArtifact(r.previous.value.files[p])
  }

  predicate LacksArtifact(e: Entry) {
    e.artifactKey.None? || e.artifactKey.value == ""
  }

  predicate Incompatible(r: Request, previous: Manifest) {
    previous.schemaVersion != r.schemaVersion || previous.ontology != r.ontology || previous.parserVersion != r.parserVersion
  }

  /** The manifest was written in the format that the request asks for. */
  predicate SameFormat(r: Request, previous: Manifest) {
    (previous.schemaVersion, previous.ontology, previous.parserVersion) == (r.schemaVersion, r.ontology, r.parserVersion)
  }

  predicate Forced(r: Request, fullRebuild: bool) {
    r.previous.None? || r.mode == "full" || Incompatible(r, r.previous.value) || fullRebuild
  }

  /** The previous entries a diff is taken against: none when everything is rebuilt. */
  function Baseline(r: Request, fullRebuild: bool): map<Path, Entry> {
    if Forced(r, fullRebuild) then map[] else r.previous.value.files
  }

  function PreviousFiles(r: Request): map<Path, Entry> {
    if r.previous.None? then map[] else r.previous.value.files
  }

  // ------------------------------------------------------------------- the diff

  predicate Differs(e: Entry, s: Snapshot) {
    e.contentHash != s.contentHash || e.language != (if s.language.Some? then s.language.value else "")
  }

  /** Which list each path belongs to. Every list is increasing, so none repeats a path. */
  ghost predicate Splits(base: map<Path, Entry>, previous: map<Path, Entry>, supported: map<Path, Snapshot>, d: Diff) {
    && Increasing(d.added) && Increasing(d.modified) && Increasing(d.same) && Increasing(d.deleted)
    && (forall p :: p in d.added <==> p in supported && p !in base)
    && (forall p :: p in d.modified <==> p in supported && p in base && EntryPrint(base[p]) != SnapshotPrint(supported[p]))
    && (forall p :: p in d.same <==> p in supported && p in base && EntryPrint(base[p]) == SnapshotPrint(supported[p]))
    && (forall p :: p in d.deleted <==> p in previous && p !in supported)
  }

  method Deleted(supported: map<Path, Snapshot>, files: map<Path, Entry>, paths: seq<Path>) returns (deleted: seq<Path>)
    requires Enumerates(paths, files.Keys)
    ensures Increasing(deleted) && forall p :: p in deleted <==> p in files && p !in supported
  {
    hide Before;
    deleted := [];
    for i := 0 to |paths|
      invariant Increasing(deleted)
      invariant forall p :: p in deleted <==> p in paths[..i] && p !in supported
    {
      assert paths[..i + 1] == paths[..i] + [paths[i]];
      if paths[i] !in supported {
        AppendIncreases(deleted, paths, i);
        deleted := deleted + [paths[i]];
      }
    }
    assert paths[..|paths|] == paths;
  }

  /** The two path lists are the iteration orders of the two ordered maps. */
  method ComputeDiff(r: Request, supported: map<Path, Snapshot>, supportedPaths: seq<Path>, previousPaths: seq<Path>, fullRebuild: bool)
    returns (d: Diff)
    requires Enumerates(supportedPaths, supported.Keys) && Enumerates(previousPaths, PreviousFiles(r).Keys)
    ensures d.forceRebuild == Forced(r, fullRebuild)
    ensures !d.forceRebuild <==> !fullRebuild && r.mode != "full" && r.previous.Some? && SameFormat(r, r.previous.value)
    ensures Splits(Baseline(r, fullRebuild), PreviousFiles(r), supported, d)
  {
    hide Before;
    if r.previous.None? {
      return Diff(supportedPaths, [], [], [], true);
    }
    var previous := r.previous.value;
    var deleted := Deleted(supported, previous.files, previousPaths);
    if r.mode == "full" || Incompatible(r, previous) || fullRebuild {
      return Diff(supportedPaths, [], [], deleted, true);
    }
    var added, modified, same := Classify(previous.files, supported, supportedPaths);
    d := Diff(added, modified, same, deleted, false);
  }

  method Classify(files: map<Path, Entry>, supported: map<Path, Snapshot>, paths: seq<Path>)
    returns (added: seq<Path>, modified: seq<Path>, same: seq<Path>)
    requires Enumerates(paths, supported.Keys)
    ensures Increasing(added) && Increasing(modified) && Increasing(same)
    ensures forall p :: p in added <==> p in supported && p !in files
    ensures forall p :: p in modified <==> p in supported && p in files && EntryPrint(files[p]) != SnapshotPrint(supported[p])
    ensures forall p :: p in same <==> p in supported && p in files && EntryPrint(files[p]) == SnapshotPrint(supported[p])
  {
    hide Before, Increasing;
    added, modified, same := [], [], [];
    NoneIncreases();
    for i := 0 to |paths|
      invariant Increasing(added) && Increasing(modified) && Increasing(same)
      invariant forall p :: p in added <==> p in paths[..i] && p !in files
      invariant forall p :: p in modified <==> p in paths[..i] && p in files && Differs(files[p], supported[p])
      invariant forall p :: p in same <==> p in paths[..i] && p in files && !Differs(files[p], supported[p])
    {
      var path := paths[i];
      assert paths[..i + 1] == paths[..i] + [path];
      if path !in files {
        AppendIncreases(added, paths, i);
        added := added + [path];
      } else if Differs(files[path], supported[path]) {
        AppendIncreases(modified, paths, i);
        modified := modified + [path];
      } else {
        AppendIncreases(same, paths, i);
        same := same + [path];
      }
    }
    assert paths[..|paths|] == paths;
  }

  lemma NoneIncreases()
    ensures Increasing([])
  {}

  // ------------------------------------------------------------------ rebuild paths

  function InsertPath(path: Path, sorted: seq<Path>): seq<Path> {
    if sorted == [] || TextLeq(path, sorted[0]) then [path] + sorted
    else [sorted[0]] + InsertPath(path, sorted[1..])
  }

  function Sorted(paths: seq<Path>): seq<Path> {
    if paths == [] then [] else InsertPath(paths[0], Sorted(paths[1..]))
  }

  function RebuildPaths(d: Diff): seq<Path> {
    Sorted(d.added + d.modified)
  }

  lemma {:induction false} InsertedPaths(path: Path, sorted: seq<Path>)
    ensures forall p :: p in InsertPath(path, sorted) <==> p == path || p in sorted
    ensures Increasing(sorted) && path !in sorted ==> Increasing(InsertPath(path, sorted))
    decreases |sorted|
  {
    hide Before;
    if sorted != [] {
      assert sorted == [sorted[0]] + sorted[1..];
      BeforeOrders(path, sorted[0], path);
      if TextLeq(path, sorted[0]) {
        if Increasing(sorted) && path !in sorted {
          forall k | 0 <= k < |sorted| ensures Before(path, sorted[k]) { BeforeOrders(path, sorted[0], sorted[k]); }
        }
      } else {
        InsertedPaths(path, sorted[1..]);
        var rest := InsertPath(path, sorted[1..]);
        if Increasing(sorted) && path !in sorted {
          assert Increasing(sorted[1..]);
          forall k | 0 <= k < |rest| ensures Before(sorted[0], rest[k]) {
            assert rest[k] == path || rest[k] in sorted[1..];
          }
        }
      }
    }
  }

  lemma {:induction false} SortedPaths(paths: seq<Path>)
    requires Distinct(paths)
    ensures Increasing(Sorted(paths)) && forall p :: p in Sorted(paths) <==> p in paths
    decreases |paths|
  {
    hide Before, InsertPath;
    if paths != [] {
      assert paths == [paths[0]] + paths[1..];
      SortedPaths(paths[1..]);
      InsertedPaths(paths[0], Sorted(paths[1..]));
    }
  }

  /** The rebuild list is increasing and names the added and modified paths. */
  lemma RebuildPathsAre(base: map<Path, Entry>, previous: map<Path, Entry>, supported: map<Path, Snapshot>, d: Diff)
    requires Splits(base, previous, supported, d)
    ensures Increasing(RebuildPaths(d))
    ensures forall p :: p in RebuildPaths(d) <==> p in d.added || p in d.modified
  {
    hide Sorted;
    IncreasingIsDistinct(d.added);
    IncreasingIsDistinct(d.modified);
    DistinctConcat(d.added, d.modified);
    SortedPaths(d.added + d.modified);
  }

  // ------------------------------------------------------------- what the diff is for

  /** Every supported path is in exactly one of three lists, and only supported paths are. */
  lemma SupportedIsPartitioned(base: map<Path, Entry>, previous: map<Path, Entry>, supported: map<Path, Snapshot>, d: Diff, p: Path)
    requires Splits(base, previous, supported, d)
    ensures p in supported <==> p in d.added || p in d.modified || p in d.same
    ensures !(p in d.added && p in d.modified) && !(p in d.added && p in d.same) && !(p in d.modified && p in d.same)
    ensures p in d.deleted ==> p !in supported && p in previous
    ensures |d.added| + |d.modified| + |d.same| == |supported|
  {
    hide Increasing, EntryPrint, SnapshotPrint;
    IncreasingIsDistinct(d.added);
    IncreasingIsDistinct(d.modified);
    IncreasingIsDistinct(d.same);
    DistinctConcat(d.added, d.modified);
    DistinctConcat(d.added + d.modified, d.same);
    ListLength(d.added + d.modified + d.same, supported.Keys);
    assert |supported.Keys| == |supported|;
  }

  lemma {:induction false} ListLength(list: seq<Path>, elements: set<Path>)
    requires Distinct(list) && forall p :: p in list <==> p in elements
    ensures |elements| == |list|
    decreases |list|
  {
    if list == [] {
      assert elements == {};
    } else {
      var n := |list| - 1;
      assert list == list[..n] + [list[n]];
      ListLength(list[..n], elements - {list[n]});
    }
  }

  /** The manifest after keeping the unchanged entries and rebuilding the rest. */
  function Incremental(base: map<Path, Entry>, supported: map<Path, Snapshot>, d: Diff): map<Path, Print> {
    (map p | p in base && p in d.same :: EntryPrint(base[p]))
    + (map p | p in supported && p in RebuildPaths(d) :: SnapshotPrint(supported[p]))
  }

  /** Rebuilding only what the diff lists gives the result of a full rebuild. */
  lemma IncrementalIsFull(base: map<Path, Entry>, previous: map<Path, Entry>, supported: map<Path, Snapshot>, d: Diff)
    requires Splits(base, previous, supported, d)
    ensures Incremental(base, supported, d) == FullBuild(supported)
  {
    hide RebuildPaths, Increasing;
    RebuildPathsAre(base, previous, supported, d);
  }

  predicate PlanIsCurrent(d: Diff) {
    !d.forceRebuild && d.added == [] && d.modified == [] && d.deleted == []
  }

  /** The refresh is skipped exactly when no rebuild is forced and the manifest already
      records what a full build would. */
  lemma SkippedExactlyWhenEqual(r: Request, supported: map<Path, Snapshot>, fullRebuild: bool, d: Diff)
    requires d.forceRebuild == Forced(r, fullRebuild) && Splits(Baseline(r, fullRebuild), PreviousFiles(r), supported, d)
    ensures PlanIsCurrent(d) <==> !Forced(r, fullRebuild) && Recorded(PreviousFiles(r)) == FullBuild(supported)
  {
    hide Increasing, EntryPrint, SnapshotPrint, Incompatible;
    var files, full := PreviousFiles(r), FullBuild(supported);
    if PlanIsCurrent(d) {
      assert Baseline(r, fullRebuild) == files;
      forall p ensures p in files <==> p in supported {
        assert p !in d.added && p !in d.deleted;
      }
      forall p | p in files ensures EntryPrint(files[p]) == SnapshotPrint(supported[p]) {
        assert p !in d.modified;
      }
    } else if !Forced(r, fullRebuild) && Recorded(files) == full {
      assert Baseline(r, fullRebuild) == files;
      assert files.Keys == Recorded(files).Keys == full.Keys == supported.Keys;
      forall p | p in supported ensures EntryPrint(files[p]) == SnapshotPrint(supported[p]) {
        assert Recorded(files)[p] == full[p];
      }
      Empty(d.added);
      Empty(d.modified);
      Empty(d.deleted);
    }
  }

  lemma Empty(list: seq<Path>)
    ensures (forall p :: p !in list) ==> list == []
  {
    if list != [] { assert list[0] in list; }
  }

  /** The whole plan of a refresh, and when it does nothing. */
  method PlanRefresh(r: Request, supported: map<Path, Snapshot>, supportedPaths: seq<Path>, previousPaths: seq<Path>)
    returns (d: Diff, current: bool)
    requires Enumerates(supportedPaths, supported.Keys) && Enumerates(previousPaths, PreviousFiles(r).Keys)
    ensures Splits(Baseline(r, RequiresFullSourceRebuild(r)), PreviousFiles(r), supported, d)
    ensures current <==>
      && r.previous.Some? && r.mode != "full" && SameFormat(r, r.previous.value)
      && r.previous.value.buildDigest == r.digest
      && (forall p :: p in r.previous.value.files ==>
            r.previous.value.files[p].artifactKey.Some? && r.previous.value.files[p].artifactKey.value != "")
      && Recorded(r.previous.value.files) == FullBuild(supported)
  {
    hide Splits, Enumerates, Recorded, FullBuild;
    var full := RequiresFullSourceRebuild(r);
    d := ComputeDiff(r, supported, supportedPaths, previousPaths, full);
    current := PlanIsCurrent(d);
    SkippedExactlyWhenEqual(r, supported, full, d);
  }
}

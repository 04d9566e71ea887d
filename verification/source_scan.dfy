/** The source scan: the walk filtered by the selection rules. */
module SourceScan {
  import opened Basics
  import opened PathText
  import opened SourceSelection
  import opened SourceWalk

  function FilterOf(s: Selection): Filter {
    Filter(f => s.IncludesFile(f), d => s.ShouldDescend(d))
  }

  ghost predicate NormalizedFiles(parent: Bytes, entries: seq<Entry>) {
    forall f :: f in AllFiles(parent, entries) ==> Normalized(f)
  }

  /** Every file is faithful below each directory the walk passes to reach it. */
  ghost predicate WellPlaced(parent: Bytes, entries: seq<Entry>)
    decreases entries
  {
    entries == [] || (WellPlacedEntry(parent, entries[0]) && WellPlaced(parent, entries[1..]))
  }

  ghost predicate WellPlacedEntry(parent: Bytes, entry: Entry)
    decreases entry
  {
    entry.Directory? ==>
      && (forall f :: f in AllFiles(Join(parent, entry.name), entry.children) ==> FaithfulBelow(f, Join(parent, entry.name)))
      && WellPlaced(Join(parent, entry.name), entry.children)
  }

  /** A file faithful below a directory that is not entered is not included. */
  lemma SkippedDirectoryHasNothing(s: Selection, path: Bytes, f: Bytes)
    requires Normalized(f)
    ensures NoHiddenComments(s.includes) && FaithfulBelow(f, path) && FilterOf(s).includes(f) ==> FilterOf(s).enters(path)
  {
    hide Selection.IncludesFile, Selection.ShouldDescend, Normalized, NoHiddenComments, FaithfulBelow;
    IncludedFileKeepsAncestors(s, f, path);
  }

  lemma {:induction false} WellPlacedIsOpen(s: Selection, parent: Bytes, entries: seq<Entry>)
    requires NoHiddenComments(s.includes) && NormalizedFiles(parent, entries) && WellPlaced(parent, entries)
    ensures Open(FilterOf(s), parent, entries)
    decreases entries
  {
    hide FilterOf, Normalized, FaithfulBelow, NoHiddenComments;
    if entries != [] {
      WellPlacedIsOpen(s, parent, entries[1..]);
      if entries[0].Directory? {
        var path, children := Join(parent, entries[0].name), entries[0].children;
        assert forall f :: f in AllFiles(path, children) ==> f in AllFiles(parent, entries);
        WellPlacedIsOpen(s, path, children);
        forall f | f in AllFiles(path, children) && FilterOf(s).includes(f) ensures FilterOf(s).enters(path) {
          SkippedDirectoryHasNothing(s, path, f);
        }
      }
    }
  }

  /** Some selection includes a file and skips a directory above it, if the tree is not
      well placed. */
  lemma {:induction false} MisplacedIsLost(parent: Bytes, entries: seq<Entry>) returns (s: Selection)
    requires ProperNames(entries)
    ensures NormalizedFiles(parent, entries) && !WellPlaced(parent, entries) ==>
              NoHiddenComments(s.includes) && !Open(FilterOf(s), parent, entries)
    decreases entries
  {
    hide FilterOf, Normalized, FaithfulBelow, NoHiddenComments;
    if !NormalizedFiles(parent, entries) || WellPlaced(parent, entries) {
      s := Selection({}, [], [], []);
    } else if WellPlacedEntry(parent, entries[0]) {
      s := MisplacedIsLost(parent, entries[1..]);
    } else {
      var path, children := Join(parent, entries[0].name), entries[0].children;
      assert forall f :: f in AllFiles(path, children) ==> f in AllFiles(parent, entries);
      if WellPlaced(path, children) {
        var f :| f in AllFiles(path, children) && !FaithfulBelow(f, path);
        FilesAreUnder(path, children, f);
        s := MisplacedFile(f, path);
      } else {
        s := MisplacedIsLost(path, children);
      }
    }
  }

  lemma MisplacedFile(f: Bytes, path: Bytes) returns (s: Selection)
    requires Normalized(f) && Under(f, path)
    ensures !FaithfulBelow(f, path) ==> NoHiddenComments(s.includes) && FilterOf(s).includes(f) && !FilterOf(s).enters(path)
  {
    hide Selection.IncludesFile, Selection.ShouldDescend, Normalized, FaithfulBelow, NoHiddenComments;
    assert f[..|path|] == path;
    if FaithfulBelow(f, path) { return Selection({}, [], [], []); }
    UnfaithfulIsLost(f, |path|);
    s :| NoHiddenComments(s.includes) && LosesAt(s, f, |path|);
  }

  /** For a tree of normalized paths, the pruned walk agrees with the filtered walk
      under every selection without hidden comments exactly when every file is
      faithful below every directory above it. */
  lemma PruningIsExactOnlyWhenWellPlaced(root: seq<Entry>)
    requires ProperNames(root) && NormalizedFiles([], root)
    ensures (forall s: Selection :: NoHiddenComments(s.includes) ==>
               PrunedFiles(FilterOf(s), [], root) == Included(FilterOf(s), AllFiles([], root)))
            <==> WellPlaced([], root)
  {
    hide FilterOf, PrunedFiles, Included, AllFiles, ProperNames, NoHiddenComments, NormalizedFiles, WellPlaced, Open;
    if WellPlaced([], root) {
      forall s: Selection | NoHiddenComments(s.includes)
        ensures PrunedFiles(FilterOf(s), [], root) == Included(FilterOf(s), AllFiles([], root)) {
        WellPlacedIsOpen(s, [], root);
        PruningIsExactWhenOpen(FilterOf(s), [], root);
      }
    } else {
      var s := MisplacedIsLost([], root);
      PruningIsExactWhenOpen(FilterOf(s), [], root);
    }
  }

  /** The scan of a source root: the walk with the selection as its filter. */
  method ScanSources(s: Selection, root: seq<Entry>) returns (ok: bool, selected: seq<Bytes>, ignored: seq<Bytes>)
    ensures ok <==> Fault !in Visits(FilterOf(s), [], root)
    ensures ok ==> selected == PrunedFiles(FilterOf(s), [], root) && ignored == Ignored(FilterOf(s), Paths(Visits(FilterOf(s), [], root)))
    ensures ok && NoHiddenComments(s.includes) && NormalizedFiles([], root) && WellPlaced([], root) ==>
              selected == Included(FilterOf(s), AllFiles([], root))
  {
    hide FilterOf, Visits, PrunedFiles, Ignored, Paths, NoHiddenComments, NormalizedFiles, WellPlaced, Included, AllFiles, Open;
    ok, selected, ignored := Walk(FilterOf(s), root);
    if NoHiddenComments(s.includes) && NormalizedFiles([], root) && WellPlaced([], root) { WellPlacedIsOpen(s, [], root); }
  }

  // ------------------------------------------------------------ plain trees

  /** A tree whose files all have faithful paths is well placed, plain paths included. */
  lemma {:induction false} FaithfulFilesAreWellPlaced(parent: Bytes, entries: seq<Entry>)
    requires ProperNames(entries) && forall f :: f in AllFiles(parent, entries) ==> FaithfulPath(f)
    ensures WellPlaced(parent, entries)
    decreases entries
  {
    hide FaithfulBelow;
    if entries != [] {
      FaithfulFilesAreWellPlaced(parent, entries[1..]);
      if entries[0].Directory? {
        var path, children := Join(parent, entries[0].name), entries[0].children;
        assert forall f :: f in AllFiles(path, children) ==> f in AllFiles(parent, entries);
        FaithfulFilesAreWellPlaced(path, children);
        forall f | f in AllFiles(path, children) ensures FaithfulBelow(f, path) {
          FilesAreUnder(path, children, f);
          assert f[..|path|] == path && FaithfulCut(f, |path|);
        }
      }
    }
  }

  lemma PlainFilesAreWellPlaced(root: seq<Entry>)
    requires ProperNames(root) && forall f :: f in AllFiles([], root) ==> PlainPath(f)
    ensures NormalizedFiles([], root) && WellPlaced([], root)
  {
    forall f | f in AllFiles([], root) ensures FaithfulPath(f) { PlainPathIsFaithful(f); }
    FaithfulFilesAreWellPlaced([], root);
  }
}

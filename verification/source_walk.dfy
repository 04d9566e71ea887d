/** A directory walk with a filter: it skips the directories the filter does not enter and
    reports the files it includes. */
module SourceWalk {
  import opened Basics
  import opened PathText

  datatype Filter = Filter(includes: Bytes -> bool, enters: Bytes -> bool)

  /** What the walk finds under the source root, in the order of file names. A
      `Special` entry is neither a file nor a directory, a symbolic link for one; a
      `Broken` one cannot be listed, which makes its directory unreadable. */
  datatype Entry =
    | File(name: Bytes)
    | Directory(name: Bytes, children: seq<Entry>)
    | Special(name: Bytes)
    | Broken(name: Bytes)

  /** A relative path: the name at the root, else parent, slash, name. Backslashes in the
      name, which some systems allow, turn into slashes. */
  function Join(parent: Bytes, name: Bytes): Bytes {
    if parent == [] then ForwardSlashes(name) else parent + [SLASH] + ForwardSlashes(name)
  }

  // ------------------------------------------------- the walk without any pruning

  /** Every file below the entries, in walk order. */
  function AllFiles(parent: Bytes, entries: seq<Entry>): seq<Bytes>
    decreases entries
  {
    if entries == [] then []
    else FilesOf(parent, entries[0]) + AllFiles(parent, entries[1..])
  }

  function FilesOf(parent: Bytes, entry: Entry): seq<Bytes>
    decreases entry
  {
    match entry
    case File(name) => [Join(parent, name)]
    case Directory(name, children) => AllFiles(Join(parent, name), children)
    case _ => []
  }

  function Included(w: Filter, files: seq<Bytes>): seq<Bytes> {
    if files == [] then []
    else (if w.includes(files[0]) then [files[0]] else []) + Included(w, files[1..])
  }

  // ------------------------------------------------------------- the pruned walk

  function PrunedFiles(w: Filter, parent: Bytes, entries: seq<Entry>): seq<Bytes>
    decreases entries
  {
    if entries == [] then []
    else PrunedOf(w, parent, entries[0]) + PrunedFiles(w, parent, entries[1..])
  }

  function PrunedOf(w: Filter, parent: Bytes, entry: Entry): seq<Bytes>
    decreases entry
  {
    match entry
    case File(name) =>
      if w.includes(Join(parent, name)) then [Join(parent, name)] else []
    case Directory(name, children) =>
      if w.enters(Join(parent, name)) then PrunedFiles(w, Join(parent, name), children) else []
    case _ => []
  }

  // ------------------------------------------------- the walk as an explicit stack

  /** What the walk comes across besides directories, in order. */
  datatype Visit = Seen(path: Bytes) | Fault

  function Visits(w: Filter, parent: Bytes, entries: seq<Entry>): seq<Visit>
    decreases entries
  {
    if entries == [] then [] else VisitsOf(w, parent, entries[0]) + Visits(w, parent, entries[1..])
  }

  function VisitsOf(w: Filter, parent: Bytes, entry: Entry): seq<Visit>
    decreases entry
  {
    match entry
    case File(name) => [Seen(Join(parent, name))]
    case Directory(name, children) =>
      if w.enters(Join(parent, name)) then Visits(w, Join(parent, name), children) else []
    case Special(_) => []
    case Broken(_) => [Fault]
  }

  function Paths(visits: seq<Visit>): seq<Bytes> {
    if visits == [] then []
    else (if visits[0].Seen? then [visits[0].path] else []) + Paths(visits[1..])
  }

  /** The files of the walk that the filter leaves out. */
  function Ignored(w: Filter, files: seq<Bytes>): seq<Bytes> {
    if files == [] then []
    else (if w.includes(files[0]) then [] else [files[0]]) + Ignored(w, files[1..])
  }

  lemma {:induction false} PathsConcat(a: seq<Visit>, b: seq<Visit>)
    ensures Paths(a + b) == Paths(a) + Paths(b)
    decreases |a|
  {
    if a == [] {
      assert a + b == b;
    } else {
      assert (a + b)[1..] == a[1..] + b;
      PathsConcat(a[1..], b);
    }
  }

  lemma {:induction false} IgnoredConcat(w: Filter, a: seq<Bytes>, b: seq<Bytes>)
    ensures Ignored(w, a + b) == Ignored(w, a) + Ignored(w, b)
    decreases |a|
  {
    if a == [] {
      assert a + b == b;
    } else {
      assert (a + b)[1..] == a[1..] + b;
      IgnoredConcat(w, a[1..], b);
    }
  }

  /** The pruned files are the included ones among those visited. */
  lemma {:induction false} VisitedAreFiltered(w: Filter, parent: Bytes, entries: seq<Entry>)
    ensures Included(w, Paths(Visits(w, parent, entries))) == PrunedFiles(w, parent, entries)
    decreases entries
  {
    if entries != [] {
      var first, rest := VisitsOf(w, parent, entries[0]), Visits(w, parent, entries[1..]);
      PathsConcat(first, rest);
      IncludedConcat(w, Paths(first), Paths(rest));
      VisitedAreFiltered(w, parent, entries[1..]);
      match entries[0]
      case File(name) => assert first[1..] == [];
      case Directory(name, children) => VisitedAreFiltered(w, Join(parent, name), children);
      case _ =>
    }
  }

  datatype Pending = Pending(parent: Bytes, entries: seq<Entry>)

  function Size(entries: seq<Entry>): nat
    decreases entries
  {
    if entries == [] then 0 else SizeOf(entries[0]) + Size(entries[1..])
  }

  function SizeOf(entry: Entry): (n: nat)
    ensures n > 0
    decreases entry
  {
    match entry
    case Directory(_, children) => 2 + Size(children)
    case _ => 1
  }

  function StackSize(stack: seq<Pending>): nat {
    if stack == [] then 0 else 1 + Size(stack[0].entries) + StackSize(stack[1..])
  }

  function StackVisits(w: Filter, stack: seq<Pending>): seq<Visit> {
    if stack == [] then []
    else Visits(w, stack[0].parent, stack[0].entries) + StackVisits(w, stack[1..])
  }

  lemma OnTop(w: Filter, top: Pending, below: seq<Pending>)
    ensures StackVisits(w, [top] + below) == Visits(w, top.parent, top.entries) + StackVisits(w, below)
    ensures StackSize([top] + below) == 1 + Size(top.entries) + StackSize(below)
    ensures top.entries == [] ==> Visits(w, top.parent, top.entries) == []
    ensures StackVisits(w, []) == []
  {
    hide VisitsOf, SizeOf;
    assert ([top] + below)[1..] == below;
  }

  lemma Regroup<T>(a: seq<T>, b: seq<T>, c: seq<T>)
    ensures (a + b) + c == a + (b + c)
  {}

  lemma NextEntry(w: Filter, top: Pending, below: seq<Pending>)
    requires top.entries != []
    ensures var rest := Pending(top.parent, top.entries[1..]);
            && StackVisits(w, [top] + below) == VisitsOf(w, top.parent, top.entries[0]) + StackVisits(w, [rest] + below)
            && StackSize([top] + below) == SizeOf(top.entries[0]) + StackSize([rest] + below)
  {
    hide StackVisits, StackSize, VisitsOf, SizeOf;
    var rest := Pending(top.parent, top.entries[1..]);
    OnTop(w, top, below);
    OnTop(w, rest, below);
    Regroup(VisitsOf(w, top.parent, top.entries[0]), Visits(w, top.parent, rest.entries), StackVisits(w, below));
  }

  /** What has been reported after some visits without a fault. */
  predicate Reported(w: Filter, visits: seq<Visit>, selected: seq<Bytes>, ignored: seq<Bytes>) {
    Fault !in visits && selected == Included(w, Paths(visits)) && ignored == Ignored(w, Paths(visits))
  }

  lemma ReportedNext(w: Filter, visits: seq<Visit>, selected: seq<Bytes>, ignored: seq<Bytes>, path: Bytes)
    requires Reported(w, visits, selected, ignored)
    ensures w.includes(path) ==> Reported(w, visits + [Seen(path)], selected + [path], ignored)
    ensures !w.includes(path) ==> Reported(w, visits + [Seen(path)], selected, ignored + [path])
  {
    PathsConcat(visits, [Seen(path)]);
    assert [Seen(path)][1..] == [] && Paths([Seen(path)]) == [path] && [path][1..] == [];
    IncludedConcat(w, Paths(visits), [path]);
    IgnoredConcat(w, Paths(visits), [path]);
  }

  /** The scan loop: depth first, entering only the directories that pass the filter,
      keeping the files that the filter includes and noting the others. An entry that
      cannot be listed ends the scan, but only if its directory is entered. */
  method Walk(w: Filter, root: seq<Entry>) returns (ok: bool, selected: seq<Bytes>, ignored: seq<Bytes>)
    ensures ok <==> Fault !in Visits(w, [], root)
    ensures ok ==> selected == PrunedFiles(w, [], root) && ignored == Ignored(w, Paths(Visits(w, [], root)))
    ensures ok ==> (selected == Included(w, AllFiles([], root)) <==> Open(w, [], root))
  {
    hide Visits, StackVisits, StackSize, Size, Reported, Included, Ignored, Paths;
    hide Open, AllFiles, PrunedFiles;
    selected, ignored := [], [];
    NothingReported(w);
    ghost var visits: seq<Visit> := [];
    var stack := [Pending([], root)];
    OnTop(w, stack[0], []);
    assert stack == [stack[0]] + [];
    while stack != []
      invariant visits + StackVisits(w, stack) == Visits(w, [], root)
      invariant Reported(w, visits, selected, ignored)
      decreases StackSize(stack)
    {
      var top, below := stack[0], stack[1..];
      assert stack == [top] + below;
      OnTop(w, top, below);
      if top.entries == [] {
        stack := below;
      } else {
        NextEntry(w, top, below);
        var entry := top.entries[0];
        var path := Join(top.parent, entry.name);
        stack := [Pending(top.parent, top.entries[1..])] + below;
        if entry.Broken? {
          assert Fault in VisitsOf(w, top.parent, entry);
          return false, selected, ignored;
        } else if entry.Directory? && w.enters(path) {
          OnTop(w, Pending(path, entry.children), stack);
          stack := [Pending(path, entry.children)] + stack;
        } else if entry.File? {
          ReportedNext(w, visits, selected, ignored, path);
          Regroup(visits, [Seen(path)], StackVisits(w, stack));
          visits := visits + [Seen(path)];
          if w.includes(path) { selected := selected + [path]; } else { ignored := ignored + [path]; }
        }
      }
    }
    ok := true;
    OnTop(w, Pending([], []), []);
    assert visits == Visits(w, [], root);
    ReportedMeans(w, visits, selected, ignored);
    VisitedAreFiltered(w, [], root);
    PruningIsExactWhenOpen(w, [], root);
  }

  lemma NothingReported(w: Filter)
    ensures Reported(w, [], [], [])
  {}

  lemma ReportedMeans(w: Filter, visits: seq<Visit>, selected: seq<Bytes>, ignored: seq<Bytes>)
    requires Reported(w, visits, selected, ignored)
    ensures Fault !in visits && selected == Included(w, Paths(visits)) && ignored == Ignored(w, Paths(visits))
  {}

  // ------------------------------------------------------------ pruning is exact

  /** Every included file lies below entered directories only. */
  ghost predicate Open(w: Filter, parent: Bytes, entries: seq<Entry>)
    decreases entries
  {
    entries == [] || (OpenEntry(w, parent, entries[0]) && Open(w, parent, entries[1..]))
  }

  ghost predicate OpenEntry(w: Filter, parent: Bytes, entry: Entry)
    decreases entry
  {
    entry.Directory? ==>
      && (forall f :: f in AllFiles(Join(parent, entry.name), entry.children) && w.includes(f) ==> w.enters(Join(parent, entry.name)))
      && Open(w, Join(parent, entry.name), entry.children)
  }

  lemma {:induction false} IncludedConcat(w: Filter, a: seq<Bytes>, b: seq<Bytes>)
    ensures Included(w, a + b) == Included(w, a) + Included(w, b)
  {
    if a == [] {
      assert a + b == b;
    } else {
      assert (a + b)[1..] == a[1..] + b;
      IncludedConcat(w, a[1..], b);
    }
  }

  lemma {:induction false} NothingIncluded(w: Filter, files: seq<Bytes>)
    requires forall f :: f in files ==> !w.includes(f)
    ensures Included(w, files) == []
  {
    if files != [] { NothingIncluded(w, files[1..]); }
  }

  /** Names are single components, so that paths decompose at their slashes. */
  predicate ProperNames(entries: seq<Entry>)
    decreases entries
  {
    entries == [] || (ProperName(entries[0]) && ProperNames(entries[1..]))
  }

  predicate ProperName(entry: Entry)
    decreases entry
  {
    entry.name != [] && SLASH !in entry.name && (entry.Directory? ==> ProperNames(entry.children))
  }

  /** Every file found below a directory has that directory above it. */
  lemma {:induction false} FilesAreUnder(parent: Bytes, entries: seq<Entry>, f: Bytes)
    requires parent != [] && ProperNames(entries) && f in AllFiles(parent, entries)
    ensures Under(f, parent)
    decreases entries
  {
    if f in FilesOf(parent, entries[0]) {
      var path := Join(parent, entries[0].name);
      assert Under(path, parent);
      if entries[0].Directory? {
        FilesAreUnder(path, entries[0].children, f);
        assert f[..|parent|] == path[..|parent|];
      }
    } else {
      FilesAreUnder(parent, entries[1..], f);
    }
  }

  lemma {:induction false} IncludedHolds(w: Filter, files: seq<Bytes>, f: Bytes)
    requires f in files && w.includes(f)
    ensures |Included(w, files)| > 0
  {
    if f != files[0] { IncludedHolds(w, files[1..], f); }
  }

  /** Pruning never adds a file. */
  lemma {:induction false} PrunedIsNoLonger(w: Filter, parent: Bytes, entries: seq<Entry>)
    ensures |PrunedFiles(w, parent, entries)| <= |Included(w, AllFiles(parent, entries))|
    decreases entries
  {
    if entries != [] {
      IncludedConcat(w, FilesOf(parent, entries[0]), AllFiles(parent, entries[1..]));
      PrunedIsNoLonger(w, parent, entries[1..]);
      match entries[0]
      case Directory(name, children) => PrunedIsNoLonger(w, Join(parent, name), children);
      case _ =>
    }
  }

  /** Pruning loses nothing, in order and multiplicity, exactly when every included file
      lies below entered directories only. */
  lemma {:induction false} PruningIsExactWhenOpen(w: Filter, parent: Bytes, entries: seq<Entry>)
    ensures PrunedFiles(w, parent, entries) == Included(w, AllFiles(parent, entries)) <==> Open(w, parent, entries)
    ensures !Open(w, parent, entries) ==> |PrunedFiles(w, parent, entries)| < |Included(w, AllFiles(parent, entries))|
    decreases entries, 1
  {
    if entries != [] {
      EntryIsExactWhenOpen(w, parent, entries[0]);
      PruningIsExactWhenOpen(w, parent, entries[1..]);
      PrunedIsNoLonger(w, parent, entries[1..]);
      PrunedIsNoLonger(w, parent, [entries[0]]);
      OneEntry(w, parent, entries[0]);
      IncludedConcat(w, FilesOf(parent, entries[0]), AllFiles(parent, entries[1..]));
    }
  }

  lemma {:induction false} EntryIsExactWhenOpen(w: Filter, parent: Bytes, entry: Entry)
    ensures PrunedOf(w, parent, entry) == Included(w, FilesOf(parent, entry)) <==> OpenEntry(w, parent, entry)
    ensures !OpenEntry(w, parent, entry) ==> |PrunedOf(w, parent, entry)| < |Included(w, FilesOf(parent, entry))|
    decreases entry, 0
  {
    if entry.Directory? {
      var path, files := Join(parent, entry.name), AllFiles(Join(parent, entry.name), entry.children);
      PruningIsExactWhenOpen(w, path, entry.children);
      PrunedIsNoLonger(w, path, entry.children);
      if !w.enters(path) {
        if f :| f in files && w.includes(f) {
          IncludedHolds(w, files, f);
        } else {
          NothingIncluded(w, files);
        }
      }
    }
  }

  lemma OneEntry(w: Filter, parent: Bytes, entry: Entry)
    ensures PrunedFiles(w, parent, [entry]) == PrunedOf(w, parent, entry)
    ensures AllFiles(parent, [entry]) == FilesOf(parent, entry)
  {
    hide PrunedOf, FilesOf;
  }

  /** No reported path has a backslash, whatever the names on disk have. */
  lemma {:induction false} PathsAreForward(parent: Bytes, entries: seq<Entry>)
    requires BACKSLASH !in parent
    ensures forall f :: f in AllFiles(parent, entries) ==> BACKSLASH !in f
    decreases entries
  {
    if entries != [] {
      PathsAreForward(parent, entries[1..]);
      if entries[0].Directory? { PathsAreForward(Join(parent, entries[0].name), entries[0].children); }
    }
  }
}

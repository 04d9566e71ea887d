/** Which directories a walk enters, and what a scan without patterns reports. */
module ScanMeaning {
  import opened Basics
  import opened PathText
  import opened PathSpellings
  import opened Wildcard
  import opened SourceSelection
  import opened SelectionMeaning
  import opened SourceWalk
  import opened SourceScan

  // ---------------------------------------------------- what an include leads into

  /** A normalized pattern with text before its first wildcard and a slash, but none at its
      end: the text, without the slashes that end it, and the rest. */
  predicate Anchored(p: Bytes, anchor: Bytes, k: nat, rest: Bytes) {
    && p == anchor + Slashes(k) + rest && anchor != [] && anchor[|anchor| - 1] != SLASH && anchor[0] != HASH
    && (forall i :: 0 <= i < |anchor| ==> anchor[i] != STAR && anchor[i] != QUESTION)
    && (rest == [] ==> k == 0) && (rest != [] ==> rest[0] == STAR || rest[0] == QUESTION)
    && SLASH in p && p[|p| - 1] != SLASH
  }

  lemma AnchorIsFound(p: Bytes, anchor: Bytes, k: nat, rest: Bytes)
    requires Anchored(p, anchor, k, rest)
    ensures FirstWildcard(p) == |anchor| + k && TrimSlashEnd(p[..|anchor| + k]) == anchor
  {
    var n := |anchor| + k;
    assert p[..n] == anchor + Slashes(k);
    assert forall i :: 0 <= i < n ==> p[i] == (anchor + Slashes(k))[i];
    assert rest != [] ==> p[n] == rest[0];
    WildcardAt(p, n);
    SlashesEnd(anchor, k);
  }

  lemma {:induction false} WildcardAt(p: Bytes, n: nat)
    requires n <= |p| && (forall i :: 0 <= i < n ==> p[i] != STAR && p[i] != QUESTION)
    requires n < |p| ==> p[n] == STAR || p[n] == QUESTION
    ensures FirstWildcard(p) == n
  {
    var i := FirstWildcard(p);
    assert i >= n;
  }

  /** A pattern written out in full leads the walk into exactly the directories above it, at
      it and below it; one that goes on with a wildcard, into those above its text and those
      whose name begins with it. */
  lemma IncludeLeadsInto(directory: Bytes, pattern: Bytes, anchor: Bytes, k: nat, rest: Bytes)
    requires directory != [] && Anchored(NormalizePattern(pattern), anchor, k, rest)
    ensures PatternMayMatchDescendant(directory, pattern) <==>
              || Under(anchor, directory) || anchor == directory
              || if rest == [] then Under(directory, anchor) else anchor <= directory
  {
    var p := NormalizePattern(pattern);
    AnchorIsFound(p, anchor, k, rest);
    assert p[0] == anchor[0];
    hide NormalizePattern, FirstWildcard, TrimSlashEnd, Slashes;
    UnderIsPrefix(anchor, directory);
    UnderIsPrefix(directory, anchor);
  }

  lemma UnderIsPrefix(path: Bytes, directory: Bytes)
    requires directory != []
    ensures Under(path, directory) <==> directory + [SLASH] <= path
  {
    if directory + [SLASH] <= path {
      assert path[..|directory| + 1] == directory + [SLASH];
      assert path[..|directory|] == directory;
    }
    if Under(path, directory) { assert path[..|directory| + 1] == directory + [SLASH]; }
  }

  // --------------------------------------------------------- which directories are cut

  /** A list cuts a directory off with a pattern that is the directory and slashes, or the
      directory followed by a slash and two stars. */
  ghost predicate CutOff(directory: Bytes, patterns: seq<Bytes>) {
    exists p :: p in patterns && Trim(p) != [] && Trim(p)[0] != HASH
      && (NormalizePattern(p) == directory + [SLASH, STAR, STAR] || exists k: nat :: k > 0 && NormalizePattern(p) == directory + Slashes(k))
  }

  lemma RulesOutExactly(directory: Bytes, p: Bytes)
    requires directory != [] && directory[|directory| - 1] != SLASH
    ensures RulesOut(directory, p) <==> p == directory + [SLASH, STAR, STAR] || exists k: nat :: k > 0 && p == directory + Slashes(k)
  {
    if p != [] && p[|p| - 1] == SLASH {
      DirectoryPart(p);
      assert p == TrimSlashEnd(p) + Slashes(|p| - |TrimSlashEnd(p)|);
      forall k: nat | p == directory + Slashes(k) ensures TrimSlashEnd(p) == directory { SlashesEnd(directory, k); }
      assert (directory + [SLASH, STAR, STAR])[|directory| + 2] == STAR;
    } else {
      forall k: nat | k > 0 ensures p != directory + Slashes(k) {
        assert (directory + Slashes(k))[|directory| + k - 1] == SLASH;
      }
    }
  }

  lemma CutOffExactly(directory: Bytes, patterns: seq<Bytes>)
    requires directory != [] && directory[|directory| - 1] != SLASH
    ensures PatternsProveDirectoryExcluded(directory, patterns) <==> CutOff(directory, patterns)
  {
    hide RulesOut, NormalizePattern, Trim, Slashes;
    forall p | p in patterns
      ensures RulesOut(directory, NormalizePattern(Trim(p))) <==>
                NormalizePattern(p) == directory + [SLASH, STAR, STAR] || exists k: nat :: k > 0 && NormalizePattern(p) == directory + Slashes(k) {
      TrimmedPatternNormalizesAlike(p);
      RulesOutExactly(directory, NormalizePattern(p));
    }
  }

  /** The directory or one above it has a generated name, `dist-...` included. */
  ghost predicate InGenerated(directory: Bytes) {
    exists part :: (part in GENERATED_PARTS || DIST_PREFIX <= part) && HasPart(directory, part)
  }

  lemma InGeneratedExactly(directory: Bytes)
    ensures IsGeneratedDirectory(directory) <==> InGenerated(directory)
  {
    hide HasPart, HasDirectory, Components;
    forall part ensures part in Components(directory) <==> HasPart(directory, part) { PartsAreComponents(directory, part); }
  }

  /** A directory is entered exactly when no component is excluded, no ignore or exclude
      pattern cuts it off, and an include may select below it; without includes, when it is
      not inside a generated directory. */
  lemma EnteredExactly(s: Selection, directory: Bytes)
    requires Normalized(directory)
    ensures s.ShouldDescend(directory) <==>
              && !HasExcludedPart(s, directory) && !CutOff(directory, s.ignores) && !CutOff(directory, s.excludes)
              && if s.includes == [] then !InGenerated(directory)
                 else exists p :: p in s.includes && PatternMayMatchDescendant(directory, p)
  {
    NormalizedShape(directory);
    assert directory[|directory| - 1] != SLASH;
    hide Normalized, NormalizePath, IsGeneratedDirectory, InGenerated, CutOff, HasExcludedPart;
    hide PatternsProveDirectoryExcluded, PatternMayMatchDescendant, Selection.HasHardExcludedPart;
    ExcludedExactly(s, directory);
    CutOffExactly(directory, s.ignores);
    CutOffExactly(directory, s.excludes);
    InGeneratedExactly(directory);
  }

  // --------------------------------------------------------- the scan without patterns

  ghost predicate IsKept(kept: seq<Bytes>, files: seq<Bytes>) {
    if files == [] then kept == []
    else if Generated(files[0]) then IsKept(kept, files[1..])
    else kept != [] && kept[0] == files[0] && IsKept(kept[1..], files[1..])
  }

  lemma {:induction false} KeepsUngenerated(files: seq<Bytes>)
    requires forall f :: f in files ==> Normalized(f)
    ensures IsKept(Included(FilterOf(NO_PATTERNS), files), files)
    decreases |files|
  {
    hide Generated, Normalized, Selection.IncludesFile;
    if files != [] {
      NoPatternsIncludeAll(files[0]);
      KeepsUngenerated(files[1..]);
      var rest := Included(FilterOf(NO_PATTERNS), files[1..]);
      assert ([files[0]] + rest)[1..] == rest && [] + rest == rest;
    }
  }

  /** The default scan of a well-placed tree reports exactly its files that are not
      generated, in order. */
  method DefaultScan(root: seq<Entry>) returns (ok: bool, selected: seq<Bytes>, ignored: seq<Bytes>)
    requires NormalizedFiles([], root) && WellPlaced([], root)
    ensures ok ==> IsKept(selected, AllFiles([], root))
  {
    hide WellPlaced, IsKept, Normalized, FilterOf;
    ok, selected, ignored := ScanSources(NO_PATTERNS, root);
    KeepsUngenerated(AllFiles([], root));
  }

  /** Whether a file is selected depends on its normal form, not on how it is written. */
  lemma SpellingIsIrrelevant(s: Selection, path: Bytes, before: Bytes, dots: nat, front: nat, text: Bytes, back: nat, after: Bytes)
    requires Normalized(path) && ForwardSlashes(text) == path && Blank(before) && Blank(after)
    requires SpaceAtStart(text) == 0 && SpaceAtEnd(text) == 0 && (path == [DOT] ==> front > 0 || back == 0)
    ensures s.IncludesFile(Spelled(before, dots, front, text, back, after)) <==> s.IncludesFile(path)
    ensures s.ShouldDescend(Spelled(before, dots, front, text, back, after)) <==> s.ShouldDescend(path)
  {
    hide Normalized, NormalizePath, Spelled, ForwardSlashes, SpaceAtStart, SpaceAtEnd, Selection.IncludesFile, Selection.ShouldDescend;
    SpellingsNormalizeAlike(path, before, dots, front, text, back, after);
    NormalizedShape(path);
    IncludesByNormalForm(s, Spelled(before, dots, front, text, back, after));
    IncludesByNormalForm(s, path);
  }

  lemma IncludesByNormalForm(s: Selection, relative: Bytes)
    ensures s.IncludesFile(relative) == s.IncludesPath(NormalizePath(relative))
    ensures s.ShouldDescend(relative) == s.EntersPath(NormalizePath(relative))
  {}
}

/** Which files a scan selects, and which directories its walk may skip.

    `IncludesFile` decides one file; `ShouldDescend` is the pruning test of the
    directory walk. The main results say that pruning never loses a selected
    file, and exactly where that needs a condition. */
module SourceSelection {
  import opened Basics
  import opened PathText
  import opened Wildcard

  const HASH: byte := 35

  // ".astro", ".kwiki" and ".scryer"; a component that starts with "dist-".
  const GENERATED_PARTS: set<Bytes> := {
    [46, 97, 115, 116, 114, 111],
    [46, 107, 119, 105, 107, 105],
    [46, 115, 99, 114, 121, 101, 114]
  }
  const DIST_PREFIX: Bytes := [100, 105, 115, 116, 45]

  // ------------------------------------------------------------------- patterns

  /** A blank or comment line selects nothing. */
  predicate IsActive(pattern: Bytes) {
    var t := Trim(pattern);
    t != [] && t[0] != HASH
  }

  /** `glob_matches` once its pattern is normalized. */
  predicate Selects(path: Bytes, p: Bytes) {
    if p != [] && p[|p| - 1] == SLASH then
      var directory := TrimSlashEnd(p);
      path == directory || directory + [SLASH] <= path
    else
      (SLASH !in p && Matches(Basename(path), p)) || Matches(path, p)
  }

  predicate GlobMatches(path: Bytes, pattern: Bytes) {
    Selects(path, NormalizePattern(pattern))
  }

  predicate MatchesAny(path: Bytes, patterns: seq<Bytes>) {
    exists p :: p in patterns && IsActive(p) && GlobMatches(path, Trim(p))
  }

  function FirstWildcard(p: Bytes): (i: nat)
    ensures i <= |p|
    ensures forall k :: 0 <= k < i ==> p[k] != STAR && p[k] != QUESTION
    ensures i < |p| ==> p[i] == STAR || p[i] == QUESTION
  {
    if p == [] || p[0] == STAR || p[0] == QUESTION then 0 else 1 + FirstWildcard(p[1..])
  }

  /** `pattern_may_match_descendant` once its pattern is normalized. */
  predicate MaySelectBelow(directory: Bytes, p: Bytes) {
    if p == [] || p[0] == HASH then false
    else if p[|p| - 1] == SLASH then
      var base := TrimSlashEnd(p);
      base == directory || directory + [SLASH] <= base || base + [SLASH] <= directory
    else if SLASH !in p then true
    else
      var i := FirstWildcard(p);
      if i == 0 then true
      else
        var prefix := TrimSlashEnd(p[..i]);
        || (i < |p| && prefix <= directory)
        || prefix == directory
        || directory + [SLASH] <= prefix
        || prefix + [SLASH] <= directory
  }

  predicate PatternMayMatchDescendant(directory: Bytes, pattern: Bytes) {
    MaySelectBelow(directory, NormalizePattern(pattern))
  }

  /** The two normalized shapes that rule out a whole directory. */
  predicate RulesOut(directory: Bytes, p: Bytes) {
    if p != [] && p[|p| - 1] == SLASH then directory == TrimSlashEnd(p)
    else p == directory + [SLASH, STAR, STAR]
  }

  predicate PatternsProveDirectoryExcluded(directory: Bytes, patterns: seq<Bytes>) {
    exists p :: p in patterns && IsActive(p) && RulesOut(directory, NormalizePattern(Trim(p)))
  }

  // ------------------------------------------------------------------ selection

  predicate IsGeneratedPath(path: Bytes) {
    var parts := Components(path);
    exists i :: 0 <= i < |parts| &&
      (parts[i] in GENERATED_PARTS || (DIST_PREFIX <= parts[i] && i + 1 < |parts|))
  }

  predicate IsGeneratedDirectory(path: Bytes) {
    exists part :: part in Components(path) && (part in GENERATED_PARTS || DIST_PREFIX <= part)
  }

  datatype Selection = Selection(
    excludedParts: set<Bytes>,
    includes: seq<Bytes>,
    excludes: seq<Bytes>,
    ignores: seq<Bytes>)
  {
    predicate HasHardExcludedPart(path: Bytes) {
      exists part :: part in Components(path) && part in excludedParts
    }

    predicate IncludesFile(relative: Bytes) { IncludesPath(NormalizePath(relative)) }

    /** The file test for a path in its normal form. */
    predicate IncludesPath(path: Bytes) {
      var explicitlyIncluded := MatchesAny(path, includes);
      && path != [] && !HasHardExcludedPart(path)
      && (includes == [] || explicitlyIncluded)
      && (!IsGeneratedPath(path) || explicitlyIncluded)
      && !MatchesAny(path, ignores)
      && !MatchesAny(path, excludes)
    }

    predicate SomeIncludeMayMatch(directory: Bytes) {
      exists p :: p in includes && PatternMayMatchDescendant(directory, p)
    }

    predicate ShouldDescend(relative: Bytes) { EntersPath(NormalizePath(relative)) }

    /** The pruning test for a directory path in its normal form. */
    predicate EntersPath(directory: Bytes) {
      && directory != [] && !HasHardExcludedPart(directory)
      && !(IsGeneratedDirectory(directory) && (includes == [] || !SomeIncludeMayMatch(directory)))
      && !(includes != [] && !SomeIncludeMayMatch(directory))
      && !PatternsProveDirectoryExcluded(directory, ignores)
      && !PatternsProveDirectoryExcluded(directory, excludes)
    }
  }

  // --------------------------------------------------------- where pruning fails

  /** Active for the file test, but a comment for the pruning test, because the
      `#` only leads once `./` has been stripped. */
  predicate HiddenComment(pattern: Bytes) {
    var p := NormalizePattern(pattern);
    IsActive(pattern) && p != [] && p[0] == HASH
  }

  predicate NoHiddenComments(patterns: seq<Bytes>) {
    forall p :: p in patterns ==> !HiddenComment(p)
  }

  /** What follows the directory starts with two literal stars and goes on. */
  predicate DoubleStarBelow(path: Bytes, directory: Bytes)
    requires Under(path, directory)
  {
    var r := path[|directory| + 1..];
    |r| >= 3 && r[0] == STAR && r[1] == STAR
  }

  // ---------------------------------------------------------- an include matches

  /** In the relation, the literal part before the first wildcard is a prefix of
      the text; with no wildcard at all the text is the pattern. */
  lemma {:induction false} GlobKeepsLiteralPrefix(text: Bytes, p: Bytes, n: nat)
    requires Glob(text, p) && n <= |p|
    requires forall k :: 0 <= k < n ==> p[k] != STAR && p[k] != QUESTION
    ensures p[..n] <= text
    ensures n == |p| ==> text == p
  {
    if n > 0 {
      GlobKeepsLiteralPrefix(text[1..], p[1..], n - 1);
      assert p[..n] == [p[0]] + p[1..][..n - 1];
      assert text == [text[0]] + text[1..];
    }
  }

  /** Two prefixes of one path that both end at a separator are nested. */
  lemma PrefixesNest(path: Bytes, directory: Bytes, base: Bytes)
    requires Under(path, directory) && base <= path
    ensures |base| <= |directory| ==> base <= directory
    ensures |base| > |directory| ==> directory + [SLASH] <= base
    ensures base + [SLASH] <= path && |base| < |directory| ==> base + [SLASH] <= directory
  {
    if |base| <= |directory| {
      assert base == path[..|base|] == directory[..|base|];
    } else {
      assert base[..|directory| + 1] == path[..|directory| + 1] == directory + [SLASH];
    }
    if base + [SLASH] <= path && |base| < |directory| {
      assert base + [SLASH] == path[..|base| + 1] == directory[..|base| + 1];
    }
  }

  /** A pattern that selects a file keeps each directory above the file open,
      unless it is empty or reads as a comment. */
  lemma SelectingPatternKeepsAncestors(path: Bytes, directory: Bytes, p: Bytes)
    requires path != [] && path[0] != SLASH && Under(path, directory)
    requires Selects(path, p) && p != [] && p[0] != HASH
    ensures MaySelectBelow(directory, p)
  {
    if p[|p| - 1] == SLASH {
      PrefixesNest(path, directory, TrimSlashEnd(p));
    } else if SLASH in p {
      MatchesIsSound(path, p);
      var i := FirstWildcard(p);
      if i > 0 {
        GlobKeepsLiteralPrefix(path, p, i);
        assert p[..|p|] == p;
        PrefixesNest(path, directory, TrimSlashEnd(p[..i]));
      }
    }
  }

  lemma EmptyPatternSelectsNothing(path: Bytes)
    requires path != [] && path[|path| - 1] != SLASH
    ensures !Selects(path, [])
  {
    MatchesIsSound(path, []);
    MatchesIsSound(Basename(path), []);
  }

  // -------------------------------------------------------- an exclusion matches

  /** Once the last star is at the end of the pattern, the rest always matches. */
  lemma {:induction false} FinalStarMatchesRest(text: Bytes, pattern: Bytes, ti: nat)
    requires ti <= |text| && pattern != [] && pattern[|pattern| - 1] == STAR
    ensures Scan(text, pattern, ti, |pattern|, Some(|pattern| - 1), ti)
    decreases |text| - ti
  {
    if ti < |text| { FinalStarMatchesRest(text, pattern, ti + 1); }
  }

  /** Two stars at the end of the pattern, met with no star remembered. */
  lemma TwoStarsAtEnd(text: Bytes, pattern: Bytes, n: nat)
    requires n <= |text| && |pattern| == n + 2 && pattern[n] == STAR && pattern[n + 1] == STAR
    ensures Scan(text, pattern, n, n, None, 0)
            <==> !(n + 2 < |text| && text[n] == STAR && text[n + 1] == STAR)
  {
    if n < |text| {
      if text[n] != STAR {
        FinalStarMatchesRest(text, pattern, n);
        assert Scan(text, pattern, n, n + 1, Some(n), n);
      } else if n + 1 < |text| && text[n + 1] != STAR {
        FinalStarMatchesRest(text, pattern, n + 1);
        assert Scan(text, pattern, n + 1, n + 1, None, 0);
      } else {
        assert Scan(text, pattern, n, n, None, 0) == Scan(text, pattern, n + 1, n + 1, None, 0);
      }
    }
  }

  /** The pattern for "everything below a directory" reaches every path below it
      but those whose next bytes are two literal stars with something after. */
  lemma DirectoryGlobMatches(path: Bytes, directory: Bytes)
    requires Under(path, directory)
    ensures Selects(path, directory + [SLASH, STAR, STAR]) <==> !DoubleStarBelow(path, directory)
  {
    var p := directory + [SLASH, STAR, STAR];
    var n := |directory| + 1;
    assert p[n - 1] == SLASH;
    ScanSkipsEqualPrefix(path, p, n, 0);
    TwoStarsAtEnd(path, p, n);
  }

  lemma RuledOutIsSelected(path: Bytes, directory: Bytes, p: Bytes)
    requires Under(path, directory) && !DoubleStarBelow(path, directory) && RulesOut(directory, p)
    ensures Selects(path, p)
  {
    if p != [] && p[|p| - 1] == SLASH {
      assert directory + [SLASH] == path[..|directory| + 1];
    } else {
      DirectoryGlobMatches(path, directory);
    }
  }

  // ------------------------------------------------------------------ main results

  lemma GeneratedAbove(path: Bytes, directory: Bytes)
    requires Under(path, directory) && IsGeneratedDirectory(directory)
    ensures IsGeneratedPath(path)
  {
    ComponentsUnder(path, directory);
    var parts, above := Components(path), Components(directory);
    var part :| part in above && (part in GENERATED_PARTS || DIST_PREFIX <= part);
    var i :| 0 <= i < |above| && above[i] == part;
    assert parts[i] == part && i + 1 < |parts|;
  }

  lemma SelectedKeepsAncestors(path: Bytes, directory: Bytes, includes: seq<Bytes>)
    requires Normalized(path) && Under(path, directory)
    ensures NoHiddenComments(includes) && MatchesAny(path, includes) ==>
              exists p :: p in includes && PatternMayMatchDescendant(directory, p)
  {
    hide Selects, MaySelectBelow, NormalizePattern, Trim;
    if NoHiddenComments(includes) && MatchesAny(path, includes) {
      var p :| p in includes && IsActive(p) && GlobMatches(path, Trim(p));
      TrimmedPatternNormalizesAlike(p);
      EmptyPatternSelectsNothing(path);
      assert !HiddenComment(p);
      SelectingPatternKeepsAncestors(path, directory, NormalizePattern(p));
      assert PatternMayMatchDescendant(directory, p);
    }
  }

  lemma ExcludedAbove(path: Bytes, directory: Bytes, patterns: seq<Bytes>)
    requires Under(path, directory) && !DoubleStarBelow(path, directory)
    ensures PatternsProveDirectoryExcluded(directory, patterns) ==> MatchesAny(path, patterns)
  {
    hide Trim, NormalizePattern, RulesOut, Selects;
    if PatternsProveDirectoryExcluded(directory, patterns) {
      var p :| p in patterns && IsActive(p) && RulesOut(directory, NormalizePattern(Trim(p)));
      RuledOutIsSelected(path, directory, NormalizePattern(Trim(p)));
      assert GlobMatches(path, Trim(p));
    }
  }

  /** An included file keeps open every directory whose normal form lies above
      it, up to the double-star case. */
  lemma IncludedFileKeepsAncestors(s: Selection, path: Bytes, raw: Bytes)
    requires Normalized(path)
    ensures FaithfulBelow(path, raw) && NoHiddenComments(s.includes) && s.IncludesFile(path) ==> s.ShouldDescend(raw)
  {
    NormalizedShape(path);
    hide Normalized, NormalizePath, NoHiddenComments, MatchesAny, PatternsProveDirectoryExcluded, IsGeneratedPath, IsGeneratedDirectory,
         Components, PatternMayMatchDescendant, DoubleStarBelow;
    if FaithfulBelow(path, raw) && NoHiddenComments(s.includes) && s.IncludesFile(path) {
      var directory := NormalizePath(raw);
      assert !s.HasHardExcludedPart(directory) by {
        ComponentsUnder(path, directory);
        assert forall part :: part in Components(directory) ==> part in Components(path);
      }
      if IsGeneratedDirectory(directory) { GeneratedAbove(path, directory); }
      SelectedKeepsAncestors(path, directory, s.includes);
      ExcludedAbove(path, directory, s.ignores);
      ExcludedAbove(path, directory, s.excludes);
    }
  }

  /** The directory still lies above the path once normalized, and what follows it is
      not `**` and more. */
  predicate FaithfulBelow(path: Bytes, raw: Bytes) {
    var directory := NormalizePath(raw);
    Under(path, directory) && !DoubleStarBelow(path, directory)
  }

  predicate FaithfulCut(path: Bytes, n: nat)
    requires 0 < n < |path|
  {
    Under(path, path[..n]) ==> FaithfulBelow(path, path[..n])
  }

  predicate FaithfulPath(path: Bytes) {
    forall n :: 0 < n < |path| ==> FaithfulCut(path, n)
  }

  predicate PruningKeeps(s: Selection, path: Bytes) {
    s.IncludesFile(path) ==>
      forall n :: 0 < n < |path| && Under(path, path[..n]) ==> s.ShouldDescend(path[..n])
  }

  /** The walk would report the path, but does not enter the directory at the cut. */
  predicate LosesAt(s: Selection, path: Bytes, n: nat)
    requires n <= |path|
  {
    s.IncludesFile(path) && !s.ShouldDescend(path[..n])
  }

  lemma FaithfulPathIsKept(s: Selection, path: Bytes)
    requires Normalized(path) && FaithfulPath(path) && NoHiddenComments(s.includes)
    ensures PruningKeeps(s, path)
  {
    hide Normalized, NormalizePath, NoHiddenComments, Selection.IncludesFile, Selection.ShouldDescend;
    if s.IncludesFile(path) {
      forall n | 0 < n < |path| && Under(path, path[..n]) ensures s.ShouldDescend(path[..n]) {
        assert FaithfulCut(path, n);
        IncludedFileKeepsAncestors(s, path, path[..n]);
      }
    }
  }

  // ------------------------------------------------- why the path must be faithful

  /** Normalizing a directory above a normalized path only shortens it. */
  lemma AncestorNormalForm(path: Bytes, n: nat)
    requires Normalized(path) && 0 < n < |path|
    ensures var e := NormalizePath(path[..n]);
            e <= path[..n] && BACKSLASH !in e && !([DOT, SLASH] <= e)
            && (e != [] ==> e[|e| - 1] != SLASH)
  {
    hide TrimEnd, NormalizePath, SpaceAtEnd, SpaceAtStart;
    NormalizedShape(path);
    NormalFormOfPrefix(path, path[..n]);
    var e := NormalizePath(path[..n]);
    assert e <= TrimEnd(path[..n]) && e == path[..|e|];
  }

  /** A selection of just the path that excludes by one pattern. */
  function Trap(path: Bytes, exclude: Bytes): Selection
    requires path != []
  {
    Selection({}, [OwnPattern(path)], [exclude], [])
  }

  /** The path as a pattern that is not a comment. */
  function OwnPattern(path: Bytes): Bytes
    requires path != []
  {
    if path[0] == HASH then [QUESTION] + path[1..] else path
  }

  lemma OwnPatternIsSettled(path: Bytes)
    requires Settled(path) && |path| > 1
    ensures Settled(OwnPattern(path)) && OwnPattern(path)[0] != HASH
  {
    var own := OwnPattern(path);
    assert |own| == |path| && forall i :: 0 < i < |own| ==> own[i] == path[i];
  }

  lemma OwnPatternSelects(path: Bytes)
    requires Settled(path) && |path| > 1 && SLASH in path && path[|path| - 1] != SLASH
    ensures IsActive(OwnPattern(path)) && !HiddenComment(OwnPattern(path))
    ensures GlobMatches(path, Trim(OwnPattern(path)))
  {
    hide Trim, NormalizePattern, Settled, SkipStars;
    var own := OwnPattern(path);
    OwnPatternIsSettled(path);
    SettledIsUnchanged(own);
    ScanSkipsEqualPrefix(path, own, |path|, 0);
  }

  /** A pattern guarded by `./` is active whatever it starts with. */
  lemma GuardedPattern(p: Bytes)
    requires p != [] && 32 < p[|p| - 1] < 127 && !([DOT, SLASH] <= p)
    ensures var x := [DOT, SLASH] + p;
            Trim(x) == x && IsActive(x) && NormalizePattern(x) == ForwardSlashes(p)
  {
    hide SpaceAtStart, SpaceAtEnd, ForwardSlashes;
    var x := [DOT, SLASH] + p;
    PrintableEndsAreNotSpace(x);
    assert Trim(x) == x;
    assert x[2..] == p;
    assert TrimDotSlash(x) == TrimDotSlash(p) == p;
  }

  /** If the exclusion rules out the directory but does not select the path, the
      trap includes the path and prunes the directory. */
  lemma TrapLoses(path: Bytes, n: nat, exclude: Bytes)
    requires Normalized(path) && 0 < n < |path| && Under(path, path[..n])
    ensures NoHiddenComments(Trap(path, exclude).includes)
    ensures var p := NormalizePattern(exclude);
            Trim(exclude) == exclude && IsActive(exclude) && RulesOut(NormalizePath(path[..n]), p) && !Selects(path, p) ==>
              LosesAt(Trap(path, exclude), path, n)
  {
    hide Trim, NormalizePattern, NormalizePath, Settled, Selects, RulesOut, Selection.IncludesFile, Selection.ShouldDescend;
    OwnPatternSelects(path);
    TrapIncludes(path, exclude);
    TrapPrunes(path, path[..n], exclude);
  }

  lemma TrapIncludes(path: Bytes, exclude: Bytes)
    requires Normalized(path)
    ensures !GlobMatches(path, Trim(exclude)) && IsActive(OwnPattern(path)) && GlobMatches(path, Trim(OwnPattern(path))) ==>
              Trap(path, exclude).IncludesFile(path)
  {
    NormalizedShape(path);
    hide Normalized, Trim, NormalizePath, GlobMatches, OwnPattern, Components, IsGeneratedPath;
    if !GlobMatches(path, Trim(exclude)) && IsActive(OwnPattern(path)) && GlobMatches(path, Trim(OwnPattern(path))) {
      var s := Trap(path, exclude);
      assert OwnPattern(path) in s.includes;
      assert MatchesAny(path, s.includes);
      assert !MatchesAny(path, s.excludes) && !MatchesAny(path, s.ignores);
    }
  }

  lemma TrapPrunes(path: Bytes, raw: Bytes, exclude: Bytes)
    requires path != []
    ensures IsActive(exclude) && RulesOut(NormalizePath(raw), NormalizePattern(Trim(exclude))) ==>
              !Trap(path, exclude).ShouldDescend(raw)
  {
    hide Trim, NormalizePath, NormalizePattern, RulesOut, Components, IsGeneratedDirectory;
    if IsActive(exclude) && RulesOut(NormalizePath(raw), NormalizePattern(Trim(exclude))) {
      var s := Trap(path, exclude);
      assert exclude in s.excludes;
      assert PatternsProveDirectoryExcluded(NormalizePath(raw), s.excludes);
    }
  }

  lemma NotUnderIsNoPrefix(path: Bytes, e: Bytes)
    requires path != [] && path[0] != SLASH && !Under(path, e)
    ensures !(e + [SLASH] <= path)
  {
    if e != [] && |e| < |path| { assert e + [SLASH] == path[..|e| + 1] <==> path[..|e|] == e && path[|e|] == SLASH; }
  }

  /** Excluding the normal form itself, when the path is not below it. */
  lemma DriftedCutIsLost(path: Bytes, n: nat)
    requires Normalized(path) && 0 < n < |path| && Under(path, path[..n])
    ensures !Under(path, NormalizePath(path[..n])) ==>
              exists s: Selection :: NoHiddenComments(s.includes) && LosesAt(s, path, n)
  {
    hide NormalizePattern, Trim, LosesAt, NormalizePath;
    var e := NormalizePath(path[..n]);
    if !Under(path, e) {
      AncestorNormalForm(path, n);
      var x := [DOT, SLASH] + (e + [BACKSLASH]);
      assert !([DOT, SLASH] <= e + [BACKSLASH]) by {
        if |e| >= 2 { assert (e + [BACKSLASH])[..2] == e[..2]; }
        if |e| == 1 { assert (e + [BACKSLASH])[1] == BACKSLASH; }
      }
      GuardedPattern(e + [BACKSLASH]);
      var p := ForwardSlashes(e + [BACKSLASH]);
      assert p == e + [SLASH];
      assert TrimSlashEnd(p) == e by { assert p[..|e|] == e; }
      NotUnderIsNoPrefix(path, e);
      assert !Selects(path, p);
      TrapLoses(path, n, x);
    }
  }

  /** Excluding everything below the normal form, when two stars follow it. */
  lemma DoubleStarCutIsLost(path: Bytes, n: nat)
    requires Normalized(path) && 0 < n < |path| && Under(path, path[..n])
    ensures Under(path, NormalizePath(path[..n])) && DoubleStarBelow(path, NormalizePath(path[..n])) ==>
              exists s: Selection :: NoHiddenComments(s.includes) && LosesAt(s, path, n)
  {
    hide NormalizePattern, Trim, LosesAt, NormalizePath;
    var e := NormalizePath(path[..n]);
    if Under(path, e) && DoubleStarBelow(path, e) {
      AncestorNormalForm(path, n);
      var p := e + [SLASH, STAR, STAR];
      assert !([DOT, SLASH] <= p) by {
        assert path[..|e| + 1] == e + [SLASH] == p[..|e| + 1];
      }
      GuardedPattern(p);
      assert ForwardSlashes(p) == p;
      DirectoryGlobMatches(path, e);
      TrapLoses(path, n, [DOT, SLASH] + p);
    }
  }

  /** Where a normalized path is not faithful below a directory, it can be lost there. */
  lemma UnfaithfulIsLost(path: Bytes, n: nat)
    requires Normalized(path) && 0 < n < |path| && Under(path, path[..n])
    ensures !FaithfulBelow(path, path[..n]) ==> exists s: Selection :: NoHiddenComments(s.includes) && LosesAt(s, path, n)
  {
    hide NormalizePath, LosesAt;
    DoubleStarCutIsLost(path, n);
    DriftedCutIsLost(path, n);
  }

  /** For a normalized path, pruning is exact under every selection without
      hidden comments exactly when the path is faithful. */
  lemma PruningIsExactForPath(path: Bytes)
    requires Normalized(path)
    ensures (forall s: Selection :: NoHiddenComments(s.includes) ==> PruningKeeps(s, path))
            <==> FaithfulPath(path)
  {
    hide NormalizePath, FaithfulBelow, Selection.IncludesFile, Selection.ShouldDescend;
    if FaithfulPath(path) {
      forall s: Selection | NoHiddenComments(s.includes) ensures PruningKeeps(s, path) {
        FaithfulPathIsKept(s, path);
      }
    } else {
      var n :| 0 < n < |path| && !FaithfulCut(path, n);
      UnfaithfulIsLost(path, n);
    }
  }

  // ----------------------------------------------------------------- plain paths

  /** A normalized path without `*` below directories that are their own normal forms. */
  predicate PlainPath(path: Bytes) {
    && Normalized(path) && STAR !in path
    && forall n :: 0 < n < |path| && path[n] == SLASH ==> Normalized(path[..n])
  }

  lemma PlainPathIsFaithful(path: Bytes)
    requires PlainPath(path)
    ensures FaithfulPath(path)
  {
    hide NormalizePath;
    forall n | 0 < n < |path| ensures FaithfulCut(path, n) {
      if Under(path, path[..n]) {
        assert Normalized(path[..n]);
        NormalizedShape(path[..n]);
        assert n + 1 < |path| ==> path[n + 1..][0] == path[n + 1];
      }
    }
  }
}

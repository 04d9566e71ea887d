/** What a selection means for a path: which components, which patterns and which generated
    directories decide, read off the texts themselves. */
module SelectionMeaning {
  import opened Basics
  import opened PathText
  import opened PathSpellings
  import opened Wildcard
  import opened SourceSelection

  // ------------------------------------------------------------------ components

  /** The part stands between slashes, or between a slash and an end of the path. */
  predicate StandsIn(path: Bytes, front: Bytes, part: Bytes, back: Bytes) {
    && path == front + part + back && SLASH !in part
    && (front == [] || front[|front| - 1] == SLASH) && (back == [] || back[0] == SLASH)
  }

  /** A file or directory on the path has this name. */
  ghost predicate HasPart(path: Bytes, part: Bytes) {
    exists front, back :: StandsIn(path, front, part, back)
  }

  /** A directory on the path has this name. */
  ghost predicate HasDirectory(path: Bytes, part: Bytes) {
    exists front, back :: StandsIn(path, front, part, back) && back != []
  }

  lemma ComponentsOf(path: Bytes)
    ensures Components(path) != []
    ensures SLASH !in path ==> Components(path) == [path]
    ensures SLASH in path ==>
              var j := FirstSlash(path);
              Components(path)[0] == path[..j] && Components(path)[1..] == Components(path[j + 1..]) && Components(path[j + 1..]) != []
  {
    hide FirstSlash;
  }

  lemma StandsFurther(path: Bytes, j: nat, front: Bytes, part: Bytes, back: Bytes)
    requires j < |path| && path[j] == SLASH && StandsIn(path[j + 1..], front, part, back)
    ensures StandsIn(path, path[..j + 1] + front, part, back)
  {
    assert path == path[..j + 1] + path[j + 1..];
  }

  lemma {:induction false} ComponentStands(path: Bytes, i: nat) returns (front: Bytes, back: Bytes)
    requires i < |Components(path)|
    ensures StandsIn(path, front, Components(path)[i], back) && (back == [] <==> i + 1 == |Components(path)|)
    decreases |path|
  {
    ComponentsOf(path);
    hide Components, FirstSlash;
    if SLASH !in path {
      front, back := [], [];
      assert path == [] + path + [];
    } else {
      var j := FirstSlash(path);
      if i == 0 {
        front, back := [], path[j..];
        assert path == [] + path[..j] + path[j..];
      } else {
        front, back := ComponentStands(path[j + 1..], i - 1);
        StandsFurther(path, j, front, Components(path)[i], back);
        front := path[..j + 1] + front;
      }
    }
  }

  lemma StandsLater(path: Bytes, j: nat, front: Bytes, part: Bytes, back: Bytes)
    requires StandsIn(path, front, part, back) && j < |front|
    ensures StandsIn(path[j + 1..], front[j + 1..], part, back)
  {
    assert path[j + 1..] == front[j + 1..] + part + back;
  }

  lemma StandsFirst(path: Bytes, part: Bytes, back: Bytes)
    requires StandsIn(path, [], part, back) && back != []
    ensures SLASH in path && FirstSlash(path) == |part| && path[..|part|] == part
  {
    assert path == part + back && path[|part|] == SLASH;
    assert forall k :: 0 <= k < |part| ==> path[k] == part[k];
    FirstSlashIs(path, |part|);
  }

  lemma {:induction false} StandingIsComponent(path: Bytes, front: Bytes, part: Bytes, back: Bytes) returns (i: nat)
    requires StandsIn(path, front, part, back)
    ensures i < |Components(path)| && Components(path)[i] == part && (back == [] <==> i + 1 == |Components(path)|)
    decreases |front|
  {
    ComponentsOf(path);
    hide Components, FirstSlash;
    if front != [] {
      assert path[|front| - 1] == SLASH;
      var j := FirstSlash(path);
      StandsLater(path, j, front, part, back);
      i := StandingIsComponent(path[j + 1..], front[j + 1..], part, back);
      i := i + 1;
    } else {
      i := 0;
      if back == [] { assert path == part; } else { StandsFirst(path, part, back); }
    }
  }

  lemma PartsAreComponents(path: Bytes, part: Bytes)
    ensures part in Components(path) <==> HasPart(path, part)
    ensures (exists i :: 0 <= i < |Components(path)| - 1 && Components(path)[i] == part) <==> HasDirectory(path, part)
  {
    forall i | 0 <= i < |Components(path)| && Components(path)[i] == part
      ensures HasPart(path, part) && (i < |Components(path)| - 1 ==> HasDirectory(path, part)) {
      var front, back := ComponentStands(path, i);
    }
    forall front, back | StandsIn(path, front, part, back)
      ensures part in Components(path)
      ensures back != [] ==> exists i :: 0 <= i < |Components(path)| - 1 && Components(path)[i] == part {
      var i := StandingIsComponent(path, front, part, back);
    }
  }

  /** A file or directory with a generated name, or a directory named `dist-...`. */
  ghost predicate Generated(path: Bytes) {
    exists part :: (part in GENERATED_PARTS && HasPart(path, part)) || (DIST_PREFIX <= part && HasDirectory(path, part))
  }

  lemma GeneratedExactly(path: Bytes)
    ensures IsGeneratedPath(path) <==> Generated(path)
  {
    hide HasPart, HasDirectory, Components;
    var parts := Components(path);
    if IsGeneratedPath(path) {
      var i :| 0 <= i < |parts| && (parts[i] in GENERATED_PARTS || (DIST_PREFIX <= parts[i] && i + 1 < |parts|));
      PartsAreComponents(path, parts[i]);
    }
    if Generated(path) {
      var part :| (part in GENERATED_PARTS && HasPart(path, part)) || (DIST_PREFIX <= part && HasDirectory(path, part));
      PartsAreComponents(path, part);
    }
  }

  // -------------------------------------------------------------------- patterns

  /** The last component of the path. */
  predicate IsName(path: Bytes, front: Bytes, name: Bytes) {
    path == front + name && SLASH !in name && (front == [] || front[|front| - 1] == SLASH)
  }

  lemma {:induction false} BasenameIsName(path: Bytes, front: Bytes, name: Bytes)
    ensures IsName(path, front, name) ==> name == Basename(path)
    decreases |path|
  {
    if IsName(path, front, name) {
      if SLASH !in path {
        assert front == [];
      } else {
        assert front != [];
        assert path[|front| - 1] == SLASH;
        var j := FirstSlash(path);
        assert j < |front|;
        assert path[j + 1..] == front[j + 1..] + name;
        BasenameIsName(path[j + 1..], front[j + 1..], name);
      }
    }
  }

  lemma {:induction false} SomeName(path: Bytes) returns (front: Bytes)
    ensures IsName(path, front, Basename(path))
    decreases |path|
  {
    if SLASH !in path {
      front := [];
    } else {
      var j := FirstSlash(path);
      var f := SomeName(path[j + 1..]);
      front := path[..j + 1] + f;
      assert path == path[..j + 1] + path[j + 1..];
    }
  }

  /** The pattern as a glob: one that ends in slashes means a directory and all below it; one
      without a slash may also match the name alone. */
  ghost predicate GlobSelects(path: Bytes, p: Bytes) {
    if p != [] && p[|p| - 1] == SLASH then
      exists d, k: nat :: p == d + Slashes(k) && (d == [] || d[|d| - 1] != SLASH) && (path == d || d + [SLASH] <= path)
    else Glob(path, p) || (SLASH !in p && exists front, name :: IsName(path, front, name) && Glob(name, p))
  }

  lemma SelectsIsGlob(path: Bytes, p: Bytes)
    requires STAR !in path
    ensures Selects(path, p) <==> GlobSelects(path, p)
  {
    if p != [] && p[|p| - 1] == SLASH {
      DirectoryPart(p);
      forall d, k: nat | p == d + Slashes(k) && (d == [] || d[|d| - 1] != SLASH) ensures d == TrimSlashEnd(p) {
        SlashesEnd(d, k);
      }
    } else {
      MatchesIsExactWithoutStars(path, p);
      var front := SomeName(path);
      assert STAR !in Basename(path) by { assert forall k :: 0 <= k < |Basename(path)| ==> Basename(path)[k] == path[|front| + k]; }
      MatchesIsExactWithoutStars(Basename(path), p);
      forall f, name | IsName(path, f, name) ensures name == Basename(path) { BasenameIsName(path, f, name); }
    }
  }

  lemma DirectoryPart(p: Bytes)
    ensures p == TrimSlashEnd(p) + Slashes(|p| - |TrimSlashEnd(p)|)
  {
    var d := TrimSlashEnd(p);
    assert forall i :: |d| <= i < |p| ==> p[i] == SLASH;
  }

  lemma {:induction false} SlashesEnd(d: Bytes, k: nat)
    requires d == [] || d[|d| - 1] != SLASH
    ensures TrimSlashEnd(d + Slashes(k)) == d
  {
    var s := d + Slashes(k);
    if k == 0 {
      assert s == d;
    } else {
      assert s[..|s| - 1] == d + Slashes(k - 1);
      SlashesEnd(d, k - 1);
    }
  }

  /** Some pattern of the list that is neither blank nor a comment selects the path. */
  ghost predicate SelectedBy(path: Bytes, patterns: seq<Bytes>) {
    exists p :: p in patterns && Trim(p) != [] && Trim(p)[0] != HASH && GlobSelects(path, NormalizePattern(p))
  }

  lemma MatchesAnyIsGlob(path: Bytes, patterns: seq<Bytes>)
    requires STAR !in path
    ensures MatchesAny(path, patterns) <==> SelectedBy(path, patterns)
  {
    hide Selects, GlobSelects, NormalizePattern, Trim;
    forall p | p in patterns ensures GlobMatches(path, Trim(p)) <==> GlobSelects(path, NormalizePattern(p)) {
      TrimmedPatternNormalizesAlike(p);
      SelectsIsGlob(path, NormalizePattern(p));
    }
  }

  // ------------------------------------------------------------------ the meaning

  ghost predicate HasExcludedPart(s: Selection, path: Bytes) {
    exists part :: part in s.excludedParts && HasPart(path, part)
  }

  lemma ExcludedExactly(s: Selection, path: Bytes)
    ensures s.HasHardExcludedPart(path) <==> HasExcludedPart(s, path)
  {
    hide HasPart, HasDirectory, Components;
    forall part ensures part in Components(path) <==> HasPart(path, part) { PartsAreComponents(path, part); }
  }

  /** Without include patterns, a file is included exactly when no component is excluded,
      nothing on its path is generated, and no ignore or exclude pattern selects it. */
  lemma IncludedByDefault(s: Selection, path: Bytes)
    requires Normalized(path) && STAR !in path && s.includes == []
    ensures s.IncludesFile(path) <==>
              !HasExcludedPart(s, path) && !Generated(path) && !SelectedBy(path, s.ignores) && !SelectedBy(path, s.excludes)
  {
    hide HasExcludedPart, Generated, SelectedBy, MatchesAny, IsGeneratedPath, Selection.HasHardExcludedPart, Normalized, NormalizePath;
    IncludesByParts(s, path);
    NoPatternsSelectNothing(path);
  }

  /** With include patterns, a file is included exactly when one of them selects it, be it
      generated or not, no component is excluded, and no ignore or exclude pattern does. */
  lemma IncludedByRequest(s: Selection, path: Bytes)
    requires Normalized(path) && STAR !in path && s.includes != []
    ensures s.IncludesFile(path) <==>
              SelectedBy(path, s.includes) && !HasExcludedPart(s, path) && !SelectedBy(path, s.ignores) && !SelectedBy(path, s.excludes)
  {
    hide HasExcludedPart, Generated, SelectedBy, MatchesAny, IsGeneratedPath, Selection.HasHardExcludedPart, Normalized, NormalizePath;
    IncludesByParts(s, path);
  }

  lemma IncludesByParts(s: Selection, path: Bytes)
    requires Normalized(path) && STAR !in path
    ensures NormalizePath(path) == path != []
    ensures s.HasHardExcludedPart(path) <==> HasExcludedPart(s, path)
    ensures IsGeneratedPath(path) <==> Generated(path)
    ensures MatchesAny(path, s.includes) <==> SelectedBy(path, s.includes)
    ensures MatchesAny(path, s.ignores) <==> SelectedBy(path, s.ignores)
    ensures MatchesAny(path, s.excludes) <==> SelectedBy(path, s.excludes)
  {
    NormalizedShape(path);
    ExcludedExactly(s, path);
    GeneratedExactly(path);
    MatchesAnyIsGlob(path, s.includes);
    MatchesAnyIsGlob(path, s.ignores);
    MatchesAnyIsGlob(path, s.excludes);
  }

  lemma NoPatternsSelectNothing(path: Bytes)
    ensures !SelectedBy(path, []) && !MatchesAny(path, [])
  {}

  const NO_PATTERNS := Selection({}, [], [], [])

  /** The selection without any patterns includes exactly the files that are not generated,
      whatever stars their names have. */
  lemma NoPatternsIncludeAll(path: Bytes)
    requires Normalized(path)
    ensures NO_PATTERNS.IncludesFile(path) <==> !Generated(path)
  {
    hide Generated, IsGeneratedPath, Normalized, NormalizePath, Components, GlobMatches;
    NormalizedShape(path);
    GeneratedExactly(path);
    NoPatternsSelectNothing(path);
  }
}

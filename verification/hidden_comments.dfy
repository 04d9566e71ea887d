/** Include patterns that turn into comments once `./` is stripped: the file test
    honours them, the pruning test does not. */
module HiddenComments {
  import opened Basics
  import opened PathText
  import opened Wildcard
  import opened SourceSelection

  /** A file the hidden comment selects, with the cut of the pruned directory. */
  function HiddenWitness(p: Bytes): (w: (Bytes, nat))
    requires p != [] && p[0] == HASH
  {
    if p[|p| - 1] == SLASH then (TrimSlashEnd(p) + [SLASH, HASH], |TrimSlashEnd(p)|)
    else if SLASH in p then (p, FirstSlash(p))
    else ([HASH, SLASH] + p, 1)
  }

  lemma TrimSlashEndKeepsHash(p: Bytes)
    requires p != [] && p[0] == HASH
    ensures TrimSlashEnd(p) != []
  {}

  lemma HiddenWitnessIsNormalized(p: Bytes)
    requires p != [] && p[0] == HASH && SpaceAtEnd(p) == 0 && BACKSLASH !in p
    ensures Normalized(HiddenWitness(p).0)
    ensures 0 < HiddenWitness(p).1 < |HiddenWitness(p).0|
    ensures Under(HiddenWitness(p).0, HiddenWitness(p).0[..HiddenWitness(p).1])
  {
    hide NormalizePath, Settled, SpaceAtStart, SpaceAtEnd;
    var (path, n) := HiddenWitness(p);
    TrimSlashEndKeepsHash(p);
    PrintableEndsAreNotSpace(path);
    assert path[0] == HASH && 0 < n < |path| && path[n] == SLASH;
    HiddenWitnessIsSettled(p);
    NormalizedShape(path);
  }

  lemma HiddenWitnessIsSettled(p: Bytes)
    requires p != [] && p[0] == HASH && SpaceAtEnd(p) == 0 && BACKSLASH !in p
    ensures HiddenWitness(p).0 != [] && Settled(HiddenWitness(p).0)
  {
    hide TrimSlashEnd;
    var path := HiddenWitness(p).0;
    PrintableEndsAreNotSpace(path);
    if p[|p| - 1] == SLASH {
      assert forall b :: b in TrimSlashEnd(p) ==> b in p;
    } else if SLASH !in p {
      assert forall i :: 0 <= i < |p| ==> path[i + 2] == p[i];
    }
  }

  lemma HiddenWitnessIsSelected(p: Bytes)
    requires p != [] && p[0] == HASH
    ensures Selects(HiddenWitness(p).0, p)
  {
    var (path, n) := HiddenWitness(p);
    if p[|p| - 1] == SLASH {
      assert TrimSlashEnd(p) + [SLASH] == path[..n + 1];
    } else if SLASH in p {
      MatchesItself(p);
    } else {
      BasenameAfterSlash([HASH], p);
      assert [HASH] + [SLASH] + p == path;
      MatchesItself(p);
    }
  }

  lemma BasenameAfterSlash(d: Bytes, name: Bytes)
    requires SLASH !in d && SLASH !in name
    ensures Basename(d + [SLASH] + name) == name
  {
    var s := d + [SLASH] + name;
    assert s[|d|] == SLASH;
    assert forall k :: 0 <= k < |d| ==> s[k] == d[k];
    assert FirstSlash(s) == |d|;
    assert s[|d| + 1..] == name;
  }

  /** Every hidden comment, listed alone, selects a file its pruning loses. */
  lemma HiddenCommentLosesAFile(pattern: Bytes)
    requires HiddenComment(pattern)
    ensures var path := HiddenWitness(NormalizePattern(pattern)).0;
            Normalized(path) && !PruningKeeps(Lone(pattern), path)
  {
    hide NormalizePattern, Trim, Selects, HiddenWitness, Normalized, Selection.IncludesFile, Selection.ShouldDescend;
    var p := NormalizePattern(pattern);
    var (path, n) := HiddenWitness(p);
    var s := Lone(pattern);
    NormalizedPatternShape(pattern);
    HiddenWitnessIsNormalized(p);
    HiddenWitnessIsSelected(p);
    TrimmedPatternNormalizesAlike(pattern);
    LoneIncludeSelects(path, pattern);
    LoneIncludePrunes(path[..n], pattern);
  }

  lemma LoneIncludeSelects(path: Bytes, pattern: Bytes)
    requires Normalized(path)
    ensures IsActive(pattern) && Selects(path, NormalizePattern(Trim(pattern))) ==> Lone(pattern).IncludesFile(path)
    ensures Lone(pattern).IncludesFile(path) ==> Selects(path, NormalizePattern(Trim(pattern)))
  {
    NormalizedShape(path);
    hide Normalized, NormalizePath, Trim, NormalizePattern, Selects, Components, IsGeneratedPath;
    var s := Lone(pattern);
    if IsActive(pattern) && Selects(path, NormalizePattern(Trim(pattern))) {
      assert pattern in s.includes && GlobMatches(path, Trim(pattern));
      assert MatchesAny(path, s.includes);
    }
  }

  lemma LoneIncludePrunes(directory: Bytes, pattern: Bytes)
    ensures HiddenComment(pattern) ==> !Lone(pattern).ShouldDescend(directory)
  {
    hide NormalizePath, NormalizePattern, Components;
    if HiddenComment(pattern) {
      var s := Lone(pattern);
      assert !s.SomeIncludeMayMatch(NormalizePath(directory));
    }
  }

  // ----------------------------------------------------- the losses on plain paths

  /** No directory the text names ends in white space or in a slash. */
  predicate CleanCuts(p: Bytes) {
    forall i :: 0 < i < |p| && p[i] == SLASH ==> SpaceAtEnd(p[..i]) == 0 && p[i - 1] != SLASH
  }

  /** The hidden comment selects a plain path below a directory. A pattern that ends in a
      slash is literal; otherwise each wildcard can stand for a letter. */
  predicate ReachesPlain(p: Bytes)
    requires p != []
  {
    if p[|p| - 1] == SLASH then STAR !in TrimSlashEnd(p) && CleanCuts(TrimSlashEnd(p) + [SLASH, HASH])
    else SLASH !in p || CleanCuts(p)
  }

  predicate IsWildcard(b: byte) { b == STAR || b == QUESTION }

  const LETTER: byte := 120

  function Instance(p: Bytes): (t: Bytes)
    ensures |t| == |p| && forall i :: 0 <= i < |p| ==> t[i] == if IsWildcard(p[i]) then LETTER else p[i]
  {
    seq(|p|, i requires 0 <= i < |p| => if IsWildcard(p[i]) then LETTER else p[i])
  }

  function PlainWitness(p: Bytes): (w: (Bytes, nat))
    requires p != [] && p[0] == HASH
  {
    if p[|p| - 1] == SLASH then (TrimSlashEnd(p) + [SLASH, HASH], |TrimSlashEnd(p)|)
    else if SLASH in p then (Instance(p), FirstSlash(p))
    else ([HASH, SLASH] + Instance(p), 1)
  }

  lemma {:induction false} InstanceGlobs(p: Bytes)
    ensures Glob(Instance(p), p)
    decreases |p|
  {
    if p != [] {
      InstanceGlobs(p[1..]);
      assert Instance(p)[1..] == Instance(p[1..]);
      if p[0] == STAR {
        assert Glob(Instance(p)[1..], p);
      }
    }
  }

  lemma InstanceMatches(p: Bytes)
    ensures STAR !in Instance(p) && Matches(Instance(p), p)
  {
    InstanceGlobs(p);
    MatchesIsExactWithoutStars(Instance(p), p);
  }

  /** A letter in place of a wildcard is no more white space than the wildcard was. */
  lemma InstanceSpace(s: Bytes)
    ensures SpaceAtEnd(Instance(s)) == SpaceAtEnd(s)
  {
    var t := Instance(s);
    if |s| >= 3 {
      assert IsWideSpace(t[|s| - 3], t[|s| - 2], t[|s| - 1]) <==> IsWideSpace(s[|s| - 3], s[|s| - 2], s[|s| - 1]);
    }
  }

  lemma InstanceCuts(p: Bytes)
    requires CleanCuts(p)
    ensures CleanCuts(Instance(p))
  {
    hide SpaceAtEnd;
    var t := Instance(p);
    forall i | 0 < i < |t| && t[i] == SLASH ensures SpaceAtEnd(t[..i]) == 0 && t[i - 1] != SLASH {
      assert t[..i] == Instance(p[..i]);
      InstanceSpace(p[..i]);
    }
  }

  /** A text led by `#` is a plain path exactly when its ends and cuts are clean. */
  lemma PlainShape(t: Bytes)
    requires t != [] && t[0] == HASH && BACKSLASH !in t && STAR !in t
    ensures PlainPath(t) <==> SpaceAtEnd(t) == 0 && t[|t| - 1] != SLASH && CleanCuts(t)
  {
    hide NormalizePath, SpaceAtEnd, SpaceAtStart, Normalized;
    PrefixShape(t, |t|);
    assert t[..|t|] == t;
    forall n | 0 < n < |t| ensures Normalized(t[..n]) <==> SpaceAtEnd(t[..n]) == 0 && t[n - 1] != SLASH {
      PrefixShape(t, n);
    }
  }

  lemma PrefixShape(t: Bytes, n: nat)
    requires 0 < n <= |t| && t[0] == HASH && BACKSLASH !in t
    ensures Normalized(t[..n]) <==> SpaceAtEnd(t[..n]) == 0 && t[n - 1] != SLASH
  {
    hide SpaceAtEnd, SpaceAtStart;
    PrintableEndsAreNotSpace(t[..n]);
  }

  lemma PlainWitnessIsPlain(p: Bytes)
    requires p != [] && p[0] == HASH && SpaceAtEnd(p) == 0 && BACKSLASH !in p && ReachesPlain(p)
    ensures var (path, n) := PlainWitness(p);
            PlainPath(path) && 0 < n < |path| && Under(path, path[..n])
  {
    hide PlainPath, SpaceAtEnd, TrimSlashEnd, Instance;
    var (path, n) := PlainWitness(p);
    TrimSlashEndKeepsHash(p);
    InstanceMatches(p);
    InstanceSpace(p);
    if p[|p| - 1] == SLASH {
      assert forall b :: b in TrimSlashEnd(p) ==> b in p;
      PrintableEndsAreNotSpace(path);
    } else if SLASH in p {
      InstanceCuts(p);
    } else {
      SpaceBehindSlash(Instance(p));
      PrintableEndsAreNotSpace([HASH]);
      assert SLASH !in Instance(p);
      assert forall i :: 2 <= i < |path| ==> path[i] == Instance(p)[i - 2] != SLASH;
      assert path[..1] == [HASH];
      assert CleanCuts(path);
    }
    PlainShape(path);
  }

  lemma SpaceBehindSlash(t: Bytes)
    requires t != [] && SpaceAtEnd(t) == 0
    ensures SpaceAtEnd([HASH, SLASH] + t) == 0
  {
    var s := [HASH, SLASH] + t;
    assert forall i :: 0 <= i < |t| ==> s[i + 2] == t[i];
  }

  lemma PlainWitnessIsSelected(p: Bytes)
    requires p != [] && p[0] == HASH
    ensures Selects(PlainWitness(p).0, p)
  {
    hide Instance, SkipStars;
    var (path, n) := PlainWitness(p);
    InstanceMatches(p);
    if p[|p| - 1] == SLASH {
      assert TrimSlashEnd(p) + [SLASH] == path[..n + 1];
    } else if SLASH !in p {
      assert SLASH !in Instance(p);
      BasenameAfterSlash([HASH], Instance(p));
      assert [HASH] + [SLASH] + Instance(p) == path;
    }
  }

  /** A run of pattern bytes without wildcards occurs in every text the pattern matches. */
  lemma {:induction false} LiteralRunOccurs(text: Bytes, p: Bytes, a: nat, b: nat) returns (j: nat)
    requires Glob(text, p) && a <= b <= |p| && forall k :: a <= k < b ==> !IsWildcard(p[k])
    ensures j + (b - a) <= |text| && text[j..j + (b - a)] == p[a..b]
    decreases |text| + |p|
  {
    if a == 0 {
      GlobKeepsLiteralPrefix(text, p, b);
      j := 0;
    } else if p[0] == STAR && !Glob(text, p[1..]) {
      var i := LiteralRunOccurs(text[1..], p, a, b);
      j := i + 1;
      assert text[1..][i..i + (b - a)] == text[j..j + (b - a)];
    } else {
      var rest := if p[0] == STAR then text else text[1..];
      var i := LiteralRunOccurs(rest, p[1..], a - 1, b - 1);
      j := if p[0] == STAR then i else i + 1;
      assert rest[i..i + (b - a)] == text[j..j + (b - a)];
      assert p[1..][a - 1..b - 1] == p[a..b];
    }
  }

  lemma SpaceIsLiteral(s: Bytes)
    ensures var k := SpaceAtEnd(s); forall i :: |s| - k <= i < |s| ==> !IsWildcard(s[i]) && s[i] != SLASH
  {}

  lemma SpaceIsShared(s: Bytes, t: Bytes)
    requires SpaceAtEnd(s) > 0 && SpaceAtEnd(s) <= |t| && s[|s| - SpaceAtEnd(s)..] == t[|t| - SpaceAtEnd(s)..]
    ensures SpaceAtEnd(t) > 0
  {
    var k := SpaceAtEnd(s);
    var a, b := s[|s| - k..], t[|t| - k..];
    assert forall i :: 0 <= i < k ==> a[i] == s[|s| - k + i];
    assert forall i :: 0 <= i < k ==> b[i] == t[|t| - k + i];
  }

  /** Each unclean cut of the pattern is an unclean cut of everything it matches. */
  lemma UncleanCutOccurs(path: Bytes, p: Bytes, i: nat) returns (n: nat)
    requires Glob(path, p) && 0 < i < |p| && p[i] == SLASH && (SpaceAtEnd(p[..i]) > 0 || p[i - 1] == SLASH)
    ensures 0 < n < |path| && path[n] == SLASH && (SpaceAtEnd(path[..n]) > 0 || path[n - 1] == SLASH)
  {
    hide SpaceAtEnd;
    var k := SpaceAtEnd(p[..i]);
    if k > 0 {
      SpaceIsLiteral(p[..i]);
      var j := LiteralRunOccurs(path, p, i - k, i + 1);
      n := j + k;
      assert path[n] == path[j..n + 1][k] == p[i - k..i + 1][k] == SLASH;
      assert path[j..n] == path[j..n + 1][..k] == p[i - k..i + 1][..k] == p[i - k..i];
      assert path[..n][j..] == path[j..n] && p[..i][i - k..] == p[i - k..i];
      SpaceIsShared(p[..i], path[..n]);
    } else {
      var m := LiteralRunOccurs(path, p, i - 1, i + 1);
      n := m + 1;
      assert path[m] == path[m..m + 2][0] == p[i - 1..i + 1][0] == SLASH;
      assert path[n] == path[m..m + 2][1] == p[i - 1..i + 1][1] == SLASH;
    }
  }

  lemma MatchedCutsAreClean(path: Bytes, p: Bytes)
    requires Glob(path, p) && CleanCuts(path)
    ensures CleanCuts(p)
  {
    hide SpaceAtEnd;
    forall i | 0 < i < |p| && p[i] == SLASH ensures SpaceAtEnd(p[..i]) == 0 && p[i - 1] != SLASH {
      if SpaceAtEnd(p[..i]) > 0 || p[i - 1] == SLASH {
        var n := UncleanCutOccurs(path, p, i);
      }
    }
  }

  /** Conversely, a hidden comment that selects a plain path below a directory reaches one
      by its text. */
  lemma SelectedPlainIsReached(path: Bytes, p: Bytes)
    requires PlainPath(path) && SLASH in path && p != [] && p[0] == HASH && BACKSLASH !in p && Selects(path, p)
    ensures ReachesPlain(p)
  {
    hide PlainPath, SpaceAtEnd, Normalized, SkipStars;
    PlainPathIsSettled(path);
    if p[|p| - 1] == SLASH {
      var base := TrimSlashEnd(p);
      TrimSlashEndKeepsHash(p);
      assert path[0] == base[0] == HASH;
      PlainShape(path);
      BaseIsClean(path, base);
    } else if SLASH in p {
      MatchesIsSound(path, p);
      assert path[0] == HASH;
      PlainShape(path);
      MatchedCutsAreClean(path, p);
    }
  }

  lemma PlainPathIsSettled(path: Bytes)
    requires PlainPath(path)
    ensures path != [] && BACKSLASH !in path && STAR !in path
  {
    NormalizedShape(path);
  }

  lemma BaseIsClean(path: Bytes, base: Bytes)
    requires base != [] && base[|base| - 1] != SLASH && (path == base || base + [SLASH] <= path)
    requires CleanCuts(path) && SpaceAtEnd(path) == 0 && STAR !in path
    ensures STAR !in base && CleanCuts(base + [SLASH, HASH])
  {
    hide SpaceAtEnd;
    var w := base + [SLASH, HASH];
    assert base <= path;
    assert forall b :: b in base ==> b in path;
    forall i | 0 < i < |w| && w[i] == SLASH ensures SpaceAtEnd(w[..i]) == 0 && w[i - 1] != SLASH {
      assert w[..i] == path[..i];
      if i == |base| && path == base { assert path[..i] == path; }
    }
  }

  // ------------------------------------------------------------------ main result

  function Lone(pattern: Bytes): Selection { Selection({}, [pattern], [], []) }

  /** Listed alone, an include pattern prunes no selected plain path, exactly unless it is
      a hidden comment that reaches one. */
  lemma IncludePrunesExactlyUnlessHidden(pattern: Bytes)
    ensures (forall path :: PlainPath(path) ==> PruningKeeps(Lone(pattern), path))
            <==> !(HiddenComment(pattern) && ReachesPlain(NormalizePattern(pattern)))
  {
    hide PlainPath, ReachesPlain, NormalizePattern, PruningKeeps;
    if HiddenComment(pattern) && ReachesPlain(NormalizePattern(pattern)) {
      ReachedPlainIsLost(pattern);
    } else {
      forall path | PlainPath(path) ensures PruningKeeps(Lone(pattern), path) {
        PlainPathIsFaithful(path);
        PlainPathIsNormalized(path);
        if HiddenComment(pattern) { UnreachedIsKept(pattern, path); }
        else { FaithfulPathIsKept(Lone(pattern), path); }
      }
    }
  }

  lemma PlainPathIsNormalized(path: Bytes)
    requires PlainPath(path)
    ensures Normalized(path)
  {}

  lemma ReachedPlainIsLost(pattern: Bytes)
    ensures HiddenComment(pattern) && ReachesPlain(NormalizePattern(pattern)) ==>
              var path := PlainWitness(NormalizePattern(pattern)).0;
              PlainPath(path) && !PruningKeeps(Lone(pattern), path)
  {
    hide NormalizePattern, Trim, Selects, PlainWitness, PlainPath, ReachesPlain, Selection.IncludesFile, Selection.ShouldDescend;
    var p := NormalizePattern(pattern);
    if HiddenComment(pattern) && ReachesPlain(p) {
      var (path, n) := PlainWitness(p);
      NormalizedPatternShape(pattern);
      PlainWitnessIsPlain(p);
      PlainWitnessIsSelected(p);
      PlainPathIsNormalized(path);
      TrimmedPatternNormalizesAlike(pattern);
      LoneIncludeSelects(path, pattern);
      LoneIncludePrunes(path[..n], pattern);
    }
  }

  lemma UnreachedIsKept(pattern: Bytes, path: Bytes)
    requires PlainPath(path)
    ensures HiddenComment(pattern) && !ReachesPlain(NormalizePattern(pattern)) ==> PruningKeeps(Lone(pattern), path)
  {
    hide NormalizePattern, Trim, Selects, PlainPath, ReachesPlain, Selection.IncludesFile, Selection.ShouldDescend;
    if HiddenComment(pattern) && !ReachesPlain(NormalizePattern(pattern)) {
      NormalizedPatternShape(pattern);
      PlainPathIsNormalized(path);
      if Lone(pattern).IncludesFile(path) && SLASH in path {
        TrimmedPatternNormalizesAlike(pattern);
        LoneIncludeSelects(path, pattern);
        SelectedPlainIsReached(path, NormalizePattern(pattern));
      }
    }
  }
}

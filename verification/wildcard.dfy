/** The glob matcher behind every include, exclude and ignore pattern.

    `Glob` is the reference relation: `?` stands for one byte, `*` for any run
    of bytes, and both may cross a path separator. `WildcardMatch` is the
    iterative matcher, which remembers only the last `*` it passed and retries
    from there; `Scan` is its run written as a function of the loop variables. */
module Wildcard {

  import opened Basics

  const STAR: byte := 42
  const QUESTION: byte := 63

  // ---------------------------------------------------------------- reference

  predicate Glob(text: seq<byte>, pattern: seq<byte>)
    decreases |text| + |pattern|
  {
    if pattern == [] then text == []
    else if pattern[0] == STAR then
      Glob(text, pattern[1..]) || (text != [] && Glob(text[1..], pattern))
    else
      && text != []
      && (pattern[0] == QUESTION || pattern[0] == text[0])
      && Glob(text[1..], pattern[1..])
  }

  // ------------------------------------------------------------------ the loop

  /** The trailing loop: skips the stars that remain in the pattern. */
  function SkipStars(pattern: seq<byte>, from: nat): (end: nat)
    requires from <= |pattern|
    ensures from <= end <= |pattern|
    ensures forall i :: from <= i < end ==> pattern[i] == STAR
    ensures end < |pattern| ==> pattern[end] != STAR
    decreases |pattern| - from
  {
    if from < |pattern| && pattern[from] == STAR then SkipStars(pattern, from + 1) else from
  }

  /** What the loop variables always satisfy: a remembered star lies before the
      pattern cursor, and everything matched since then is `text[mi..ti]`. */
  predicate Cursor(text: seq<byte>, pattern: seq<byte>, ti: nat, pi: nat, star: Option<nat>, mi: nat) {
    && ti <= |text|
    && pi <= |pattern|
    && mi <= ti
    && (star.Some? ==> star.value < pi && pattern[star.value] == STAR && ti - mi == pi - star.value - 1)
  }

  /** The answer the loop gives from the given values of its variables. */
  predicate Scan(text: seq<byte>, pattern: seq<byte>, ti: nat, pi: nat, star: Option<nat>, mi: nat)
    requires Cursor(text, pattern, ti, pi, star, mi)
    decreases if star.Some? then |pattern| - star.value - 1 else |pattern|, |text| - mi, |text| - ti
  {
    if ti == |text| then SkipStars(pattern, pi) == |pattern|
    else if pi < |pattern| && (pattern[pi] == QUESTION || pattern[pi] == text[ti]) then
      Scan(text, pattern, ti + 1, pi + 1, star, mi)
    else if pi < |pattern| && pattern[pi] == STAR then
      Scan(text, pattern, ti, pi + 1, Some(pi), ti)
    else if star.Some? then
      Scan(text, pattern, mi + 1, star.value + 1, star, mi + 1)
    else false
  }

  predicate Matches(text: seq<byte>, pattern: seq<byte>) {
    Scan(text, pattern, 0, 0, None, 0)
  }

  method WildcardMatch(text: seq<byte>, pattern: seq<byte>) returns (matched: bool)
    ensures matched == Matches(text, pattern)
    ensures matched ==> Glob(text, pattern)
    ensures STAR !in text ==> (matched <==> Glob(text, pattern))
  {
    var ti: nat, pi: nat := 0, 0;
    var star: Option<nat> := None;
    var mi: nat := 0;
    MatchesIsSound(text, pattern);
    if STAR !in text { MatchesIsExactWithoutStars(text, pattern); }
    while ti < |text|
      invariant Cursor(text, pattern, ti, pi, star, mi)
      invariant Scan(text, pattern, ti, pi, star, mi) == Matches(text, pattern)
      decreases if star.Some? then |pattern| - star.value - 1 else |pattern|, |text| - mi, |text| - ti
    {
      if pi < |pattern| && (pattern[pi] == QUESTION || pattern[pi] == text[ti]) {
        ti, pi := ti + 1, pi + 1;
      } else if pi < |pattern| && pattern[pi] == STAR {
        star, mi, pi := Some(pi), ti, pi + 1;
      } else if star.Some? {
        pi, mi := star.value + 1, mi + 1;
        ti := mi;
      } else {
        return false;
      }
    }
    ghost var resume: nat := pi;
    while pi < |pattern| && pattern[pi] == STAR
      invariant resume <= pi <= |pattern|
      invariant SkipStars(pattern, pi) == SkipStars(pattern, resume)
    {
      pi := pi + 1;
    }
    return pi == |pattern|;
  }

  // ------------------------------------------------------- laws of the relation

  lemma {:induction false} StarAbsorbs(text: seq<byte>, k: nat, pattern: seq<byte>)
    requires k <= |text| && pattern != [] && pattern[0] == STAR
    requires Glob(text[k..], pattern)
    ensures Glob(text, pattern)
  {
    if k == 0 {
      assert text[0..] == text;
    } else {
      assert text[1..][k - 1..] == text[k..];
      StarAbsorbs(text[1..], k - 1, pattern);
    }
  }

  /** A star matches some run: there is a point after which the rest matches. */
  lemma {:induction false} StarSplits(text: seq<byte>, pattern: seq<byte>) returns (k: nat)
    requires pattern != [] && pattern[0] == STAR
    requires Glob(text, pattern)
    ensures k <= |text| && Glob(text[k..], pattern[1..])
    decreases |text|
  {
    if Glob(text, pattern[1..]) {
      k := 0;
      assert text[0..] == text;
    } else {
      var j := StarSplits(text[1..], pattern);
      k := j + 1;
      assert text[1..][j..] == text[k..];
    }
  }

  /** A star-free run of `n` pattern bytes consumes exactly `n` text bytes. */
  lemma {:induction false} LiteralRunConsumes(text: seq<byte>, pattern: seq<byte>, n: nat)
    requires n <= |pattern| && STAR !in pattern[..n]
    requires Glob(text, pattern)
    ensures n <= |text| && Glob(text[n..], pattern[n..])
  {
    if n == 0 {
      assert text[0..] == text && pattern[0..] == pattern;
    } else {
      assert pattern[0] == pattern[..n][0];
      assert pattern[1..][..n - 1] == pattern[..n][1..];
      LiteralRunConsumes(text[1..], pattern[1..], n - 1);
      assert text[1..][n - 1..] == text[n..];
      assert pattern[1..][n - 1..] == pattern[n..];
    }
  }

  lemma {:induction false} OnlyStarsMatchNothing(pattern: seq<byte>, from: nat)
    requires from <= |pattern|
    ensures Glob([], pattern[from..]) <==> SkipStars(pattern, from) == |pattern|
    decreases |pattern| - from
  {
    if from < |pattern| && pattern[from] == STAR {
      assert pattern[from..][1..] == pattern[from + 1..];
      OnlyStarsMatchNothing(pattern, from + 1);
    }
  }

  // ------------------------------------------------------------------ soundness

  /** A step that matches one byte (including `*` read as a literal) is a step
      of the relation. */
  lemma OneByteStep(text: seq<byte>, pattern: seq<byte>, ti: nat, pi: nat)
    requires ti < |text| && pi < |pattern|
    requires pattern[pi] == QUESTION || pattern[pi] == text[ti]
    requires Glob(text[ti + 1..], pattern[pi + 1..])
    ensures Glob(text[ti..], pattern[pi..])
  {
    assert text[ti..][1..] == text[ti + 1..];
    assert pattern[pi..][1..] == pattern[pi + 1..];
    if pattern[pi] == STAR {
      assert Glob(text[ti..][1..], pattern[pi..]);
    }
  }

  lemma {:induction false} ScanIsSound(text: seq<byte>, pattern: seq<byte>, ti: nat, pi: nat, star: Option<nat>, mi: nat)
    requires Cursor(text, pattern, ti, pi, star, mi)
    requires Scan(text, pattern, ti, pi, star, mi)
    ensures Glob(text[ti..], pattern[pi..]) || (star.Some? && Glob(text[mi..], pattern[star.value..]))
    decreases if star.Some? then |pattern| - star.value - 1 else |pattern|, |text| - mi, |text| - ti
  {
    if ti == |text| {
      assert text[ti..] == [];
      OnlyStarsMatchNothing(pattern, pi);
    } else if pi < |pattern| && (pattern[pi] == QUESTION || pattern[pi] == text[ti]) {
      ScanIsSound(text, pattern, ti + 1, pi + 1, star, mi);
      if Glob(text[ti + 1..], pattern[pi + 1..]) { OneByteStep(text, pattern, ti, pi); }
    } else if pi < |pattern| && pattern[pi] == STAR {
      ScanIsSound(text, pattern, ti, pi + 1, Some(pi), ti);
      assert pattern[pi..][1..] == pattern[pi + 1..];
    } else {
      ScanIsSound(text, pattern, mi + 1, star.value + 1, star, mi + 1);
      assert text[mi..][1..] == text[mi + 1..];
      assert pattern[star.value..][1..] == pattern[star.value + 1..];
      StarAbsorbs(text[mi..], 1, pattern[star.value..]) by {
        assert Glob(text[mi + 1..], pattern[star.value..]);
      }
    }
  }

  /** Whatever the matcher accepts is a true glob match, for every text. */
  lemma MatchesIsSound(text: seq<byte>, pattern: seq<byte>)
    ensures Matches(text, pattern) ==> Glob(text, pattern)
  {
    if Matches(text, pattern) {
      ScanIsSound(text, pattern, 0, 0, None, 0);
      assert text[0..] == text && pattern[0..] == pattern;
    }
  }

  // --------------------------------------------------------------- completeness

  /** Between the remembered star and the pattern cursor there is no star when
      the text has none, so the two cursors move over a literal run. */
  predicate LiteralSinceStar(pattern: seq<byte>, pi: nat, star: Option<nat>) {
    star.Some? ==> star.value < pi <= |pattern| && STAR !in pattern[star.value + 1..pi]
  }

  /** Forgetting an older star loses nothing: a later retry of it would already
      give a match from the current text position. */
  lemma OlderStarIsRedundant(text: seq<byte>, pattern: seq<byte>, ti: nat, pi: nat, star: nat, mi: nat)
    requires Cursor(text, pattern, ti, pi, Some(star), mi) && LiteralSinceStar(pattern, pi, Some(star))
    requires mi < |text| && Glob(text[mi + 1..], pattern[star..])
    ensures exists k :: ti < k <= |text| && Glob(text[k..], pattern[pi..])
  {
    var j := StarSplits(text[mi + 1..], pattern[star..]);
    assert text[mi + 1..][j..] == text[mi + 1 + j..];
    assert pattern[star..][1..] == pattern[star + 1..];
    var n := pi - star - 1;
    assert pattern[star + 1..][..n] == pattern[star + 1..pi];
    LiteralRunConsumes(text[mi + 1 + j..], pattern[star + 1..], n);
    assert text[mi + 1 + j..][n..] == text[mi + 1 + j + n..];
    assert pattern[star + 1..][n..] == pattern[pi..];
    assert Glob(text[ti + 1 + j..], pattern[pi..]);
  }

  lemma {:induction false} ScanIsComplete(text: seq<byte>, pattern: seq<byte>, ti: nat, pi: nat, star: Option<nat>, mi: nat)
    requires STAR !in text
    requires Cursor(text, pattern, ti, pi, star, mi) && LiteralSinceStar(pattern, pi, star)
    requires Glob(text[ti..], pattern[pi..])
             || (star.Some? && mi < |text| && Glob(text[mi + 1..], pattern[star.value..]))
    ensures Scan(text, pattern, ti, pi, star, mi)
    decreases if star.Some? then |pattern| - star.value - 1 else |pattern|, |text| - mi, |text| - ti
  {
    if ti == |text| {
      if !Glob(text[ti..], pattern[pi..]) { OlderStarIsRedundant(text, pattern, ti, pi, star.value, mi); }
      assert text[ti..] == [];
      OnlyStarsMatchNothing(pattern, pi);
    } else if pi < |pattern| && (pattern[pi] == QUESTION || pattern[pi] == text[ti]) {
      assert text[ti] in text;
      assert text[ti..][1..] == text[ti + 1..];
      assert pattern[pi..][1..] == pattern[pi + 1..];
      if star.Some? { assert pattern[star.value + 1..pi + 1] == pattern[star.value + 1..pi] + [pattern[pi]]; }
      ScanIsComplete(text, pattern, ti + 1, pi + 1, star, mi);
    } else if pi < |pattern| && pattern[pi] == STAR {
      if !Glob(text[ti..], pattern[pi..]) {
        OlderStarIsRedundant(text, pattern, ti, pi, star.value, mi);
        var k :| ti < k <= |text| && Glob(text[k..], pattern[pi..]);
        assert text[ti..][k - ti..] == text[k..];
        StarAbsorbs(text[ti..], k - ti, pattern[pi..]);
      }
      assert text[ti..][1..] == text[ti + 1..];
      assert pattern[pi..][1..] == pattern[pi + 1..];
      ScanIsComplete(text, pattern, ti, pi + 1, Some(pi), ti);
    } else {
      assert !Glob(text[ti..], pattern[pi..]);
      assert text[mi + 1..] != [] ==> text[mi + 1..][1..] == text[mi + 2..];
      assert pattern[star.value..][1..] == pattern[star.value + 1..];
      ScanIsComplete(text, pattern, mi + 1, star.value + 1, star, mi + 1);
    }
  }

  lemma MatchesIsExactWithoutStars(text: seq<byte>, pattern: seq<byte>)
    requires STAR !in text
    ensures Matches(text, pattern) <==> Glob(text, pattern)
  {
    MatchesIsSound(text, pattern);
    if Glob(text, pattern) {
      assert text[0..] == text && pattern[0..] == pattern;
      ScanIsComplete(text, pattern, 0, 0, None, 0);
    }
  }

  // ------------------------------------------- where the matcher is exactly Glob

  /** A star-free byte string matches itself, in the relation. */
  lemma {:induction false} GlobPrefix(prefix: seq<byte>, text: seq<byte>, pattern: seq<byte>)
    requires STAR !in prefix && Glob(text, pattern)
    ensures Glob(prefix + text, prefix + pattern)
  {
    if prefix == [] {
      assert prefix + text == text && prefix + pattern == pattern;
    } else {
      assert prefix[0] in prefix;
      GlobPrefix(prefix[1..], text, pattern);
      assert (prefix + text)[1..] == prefix[1..] + text;
      assert (prefix + pattern)[1..] == prefix[1..] + pattern;
    }
  }

  /** Equal prefixes are consumed byte by byte, stars included, before any star
      is remembered. */
  lemma {:induction false} ScanSkipsEqualPrefix(text: seq<byte>, pattern: seq<byte>, n: nat, from: nat)
    requires from <= n <= |text| && n <= |pattern|
    requires forall i :: from <= i < n ==> pattern[i] == QUESTION || pattern[i] == text[i]
    ensures Scan(text, pattern, from, from, None, 0) == Scan(text, pattern, n, n, None, 0)
    decreases n - from
  {
    if from < n { ScanSkipsEqualPrefix(text, pattern, n, from + 1); }
  }

  lemma MatchesItself(text: seq<byte>)
    ensures Matches(text, text)
  {
    ScanSkipsEqualPrefix(text, text, |text|, 0);
  }

  /** The pattern that exposes a `*` byte in the text: `*` is read as a literal
      against it, and nothing is left to absorb what follows. */
  function StarTrap(text: seq<byte>, at: nat): seq<byte>
    requires at < |text|
  {
    text[..at] + (if at + 1 == |text| then [STAR, QUESTION] else [STAR])
  }

  lemma StarTrapIsMissed(text: seq<byte>, at: nat)
    requires at < |text| && text[at] == STAR && STAR !in text[..at]
    ensures Glob(text, StarTrap(text, at)) && !Matches(text, StarTrap(text, at))
  {
    var trap := StarTrap(text, at);
    var tail := text[at..];
    var star := trap[at..];
    assert text == text[..at] + tail && trap == text[..at] + star;
    assert star[1..] == if at + 1 == |text| then [QUESTION] else [];
    assert Glob(tail, star) by {
      if at + 1 == |text| {
        assert tail == [STAR] && tail[1..] == [];
        assert Glob(tail, star[1..]);
      } else {
        assert tail[|tail|..] == [] && Glob([], star);
        StarAbsorbs(tail, |tail|, star);
      }
    }
    GlobPrefix(text[..at], tail, star);
    ScanSkipsEqualPrefix(text, trap, at + 1, 0);
  }

  /** The matcher agrees with the glob relation on every pattern exactly for the
      texts that contain no `*` byte. */
  lemma MatcherIsGlobExactlyOnStarFreeTexts(text: seq<byte>)
    ensures (forall pattern :: Matches(text, pattern) == Glob(text, pattern)) <==> STAR !in text
  {
    if STAR !in text {
      forall pattern ensures Matches(text, pattern) == Glob(text, pattern) {
        MatchesIsExactWithoutStars(text, pattern);
      }
    } else {
      var at := FirstStar(text);
      StarTrapIsMissed(text, at);
    }
  }

  function FirstStar(text: seq<byte>): (at: nat)
    requires STAR in text
    ensures at < |text| && text[at] == STAR && STAR !in text[..at]
  {
    if text[0] == STAR then 0
    else
      var rest := FirstStar(text[1..]);
      assert text[..rest + 1] == [text[0]] + text[1..][..rest];
      rest + 1
  }
}

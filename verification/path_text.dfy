/** Paths and patterns as the source trims, normalizes and splits them. */
module PathText {
  import opened Basics

  const SLASH: byte := 47
  const BACKSLASH: byte := 92
  const DOT: byte := 46

  // ------------------------------------------------------------ string trimming

  /** How many bytes at `i` encode a character with the White_Space property,
      in UTF-8. */
  function SpaceAt(s: Bytes, i: int): (n: nat)
    requires 0 <= i
    ensures i + n <= |s| || n == 0
  {
    if i < |s| && (9 <= s[i] <= 13 || s[i] == 32) then 1
    else if i + 1 < |s| && s[i] == 0xC2 && (s[i + 1] == 0x85 || s[i + 1] == 0xA0) then 2
    else if i + 2 < |s| && IsWideSpace(s[i], s[i + 1], s[i + 2]) then 3
    else 0
  }

  predicate IsWideSpace(a: byte, b: byte, c: byte) {
    || (a == 0xE1 && b == 0x9A && c == 0x80)
    || (a == 0xE2 && b == 0x80 && (0x80 <= c <= 0x8A || c == 0xA8 || c == 0xA9 || c == 0xAF))
    || (a == 0xE2 && b == 0x81 && c == 0x9F)
    || (a == 0xE3 && b == 0x80 && c == 0x80)
  }

  function SpaceAtStart(s: Bytes): (n: nat)
    ensures n <= |s|
  {
    SpaceAt(s, 0)
  }

  function SpaceAtEnd(s: Bytes): (n: nat)
    ensures n <= |s|
  {
    if |s| >= 1 && SpaceAt(s, |s| - 1) == 1 then 1
    else if |s| >= 2 && SpaceAt(s, |s| - 2) == 2 then 2
    else if |s| >= 3 && SpaceAt(s, |s| - 3) == 3 then 3
    else 0
  }

  function TrimStart(s: Bytes): (r: Bytes)
    ensures |r| < |s| || r == s
    ensures SpaceAtStart(r) == 0
  {
    var n := SpaceAtStart(s);
    if n == 0 then s else TrimStart(s[n..])
  }

  function TrimEnd(s: Bytes): (r: Bytes)
    ensures r <= s
    ensures SpaceAtEnd(r) == 0
  {
    var n := SpaceAtEnd(s);
    if n == 0 then s else TrimEnd(s[..|s| - n])
  }

  function Trim(s: Bytes): Bytes {
    TrimEnd(TrimStart(s))
  }

  function TrimDotSlash(s: Bytes): (r: Bytes)
    ensures |r| <= |s| && r == s[|s| - |r|..]
    ensures !([DOT, SLASH] <= r)
  {
    if [DOT, SLASH] <= s then TrimDotSlash(s[2..]) else s
  }

  function ForwardSlashes(s: Bytes): (r: Bytes)
    ensures |r| == |s| && BACKSLASH !in r
    ensures forall i :: 0 <= i < |s| ==> r[i] == if s[i] == BACKSLASH then SLASH else s[i]
  {
    seq(|s|, i requires 0 <= i < |s| => if s[i] == BACKSLASH then SLASH else s[i])
  }

  function TrimSlashStart(s: Bytes): (r: Bytes)
    ensures |r| <= |s| && r == s[|s| - |r|..]
    ensures r != [] ==> r[0] != SLASH
  {
    if s != [] && s[0] == SLASH then TrimSlashStart(s[1..]) else s
  }

  function TrimSlashEnd(s: Bytes): (r: Bytes)
    ensures r <= s
    ensures r != [] ==> r[|r| - 1] != SLASH
    ensures forall i :: |r| <= i < |s| ==> s[i] == SLASH
  {
    if s != [] && s[|s| - 1] == SLASH then TrimSlashEnd(s[..|s| - 1]) else s
  }

  function NormalizePattern(pattern: Bytes): Bytes {
    ForwardSlashes(TrimDotSlash(Trim(pattern)))
  }

  function NormalizePath(path: Bytes): Bytes {
    TrimSlashEnd(TrimSlashStart(NormalizePattern(path)))
  }

  /** No step of the normalization has anything to do. */
  predicate Settled(s: Bytes) {
    SpaceAtStart(s) == 0 && SpaceAtEnd(s) == 0 && !([DOT, SLASH] <= s) && BACKSLASH !in s
  }

  /** Paths the walk can report unchanged: the fixed points of the normalization. */
  predicate Normalized(path: Bytes) {
    path != [] && Settled(path) && path[0] != SLASH && path[|path| - 1] != SLASH
  }

  lemma PrintableEndsAreNotSpace(s: Bytes)
    requires s != []
    ensures 32 < s[0] < 127 ==> SpaceAtStart(s) == 0
    ensures 32 < s[|s| - 1] < 127 ==> SpaceAtEnd(s) == 0
  {}

  /** Whitespace at the front is seen by looking at no more than a prefix. */
  lemma PrefixHasNoLeadingSpace(s: Bytes, prefix: Bytes)
    requires prefix <= s && SpaceAtStart(s) == 0
    ensures SpaceAtStart(prefix) == 0
  {}

  lemma TrimIsIdempotent(s: Bytes)
    ensures Trim(Trim(s)) == Trim(s)
  {
    PrefixHasNoLeadingSpace(TrimStart(s), Trim(s));
    assert TrimStart(Trim(s)) == Trim(s);
  }

  lemma TrimmedPatternNormalizesAlike(pattern: Bytes)
    ensures NormalizePattern(Trim(pattern)) == NormalizePattern(pattern)
  {
    TrimIsIdempotent(pattern);
  }

  lemma SettledIsUnchanged(s: Bytes)
    requires Settled(s)
    ensures Trim(s) == s && NormalizePattern(s) == s
  {
    assert TrimStart(s) == s && TrimEnd(s) == s && TrimDotSlash(s) == s;
    assert ForwardSlashes(s) == s;
  }

  /** Of a prefix of a settled path, normalization only shortens the end. */
  lemma NormalFormOfPrefix(path: Bytes, d: Bytes)
    requires Settled(path) && d <= path && (path != [] ==> path[0] != SLASH)
    ensures NormalizePath(d) == TrimSlashEnd(TrimEnd(d))
  {
    hide SpaceAtEnd, SpaceAt, TrimEnd;
    PrefixHasNoLeadingSpace(path, d);
    assert TrimStart(d) == d;
    var t := TrimEnd(d);
    assert t == path[..|t|];
    assert !([DOT, SLASH] <= t) && TrimDotSlash(t) == t;
    assert ForwardSlashes(t) == t;
    assert TrimSlashStart(t) == t;
  }

  /** Normalized paths are exactly the nonempty fixed points of the normalization. */
  lemma NormalizedShape(path: Bytes)
    ensures Normalized(path) <==> path != [] && NormalizePath(path) == path
  {
    if Normalized(path) { SettledIsUnchanged(path); }
    if path != [] && NormalizePath(path) == path { FixedPointIsSettled(path); }
  }

  lemma FixedPointIsSettled(path: Bytes)
    requires path != [] && NormalizePath(path) == path
    ensures Settled(path) && path[0] != SLASH && path[|path| - 1] != SLASH
  {
    var a := TrimStart(path);
    var b := TrimEnd(a);
    var c := TrimDotSlash(b);
    var d := ForwardSlashes(c);
    assert |a| == |path| && a == path;
    assert |b| == |path| && b == path;
    assert |c| == |path| && c == path;
    assert |TrimSlashStart(d)| == |path| && TrimSlashStart(d) == d;
    assert d == path;
  }

  /** Slashing the backslashes and stripping `./` uncover no trailing space. */
  lemma NormalizedPatternShape(pattern: Bytes)
    ensures SpaceAtEnd(NormalizePattern(pattern)) == 0 && BACKSLASH !in NormalizePattern(pattern)
  {
    hide SpaceAtEnd, TrimStart, TrimEnd, TrimDotSlash, ForwardSlashes;
    var t := Trim(pattern);
    var c := TrimDotSlash(t);
    SuffixHasNoTrailingSpace(t, c);
    SlashingAddsNoTrailingSpace(c);
  }

  lemma SuffixHasNoTrailingSpace(s: Bytes, suffix: Bytes)
    requires |suffix| <= |s| && suffix == s[|s| - |suffix|..] && SpaceAtEnd(s) == 0
    ensures SpaceAtEnd(suffix) == 0
  {
    var k := |s| - |suffix|;
    assert forall i :: 0 <= i < |suffix| ==> suffix[i] == s[k + i];
  }

  lemma SlashingAddsNoTrailingSpace(s: Bytes)
    requires SpaceAtEnd(s) == 0
    ensures SpaceAtEnd(ForwardSlashes(s)) == 0
  {
    var r := ForwardSlashes(s);
    if |s| >= 3 {
      assert IsWideSpace(r[|s| - 3], r[|s| - 2], r[|s| - 1]) ==> IsWideSpace(s[|s| - 3], s[|s| - 2], s[|s| - 1]);
    }
  }

  // ------------------------------------------------------------ path components

  function FirstSlash(s: Bytes): (i: nat)
    requires SLASH in s
    ensures i < |s| && s[i] == SLASH
    ensures forall k :: 0 <= k < i ==> s[k] != SLASH
  {
    if s[0] == SLASH then 0 else FirstSlash(s[1..]) + 1
  }

  function Components(s: Bytes): seq<Bytes>
  {
    if SLASH !in s then [s]
    else
      var i := FirstSlash(s);
      [s[..i]] + Components(s[i + 1..])
  }

  function Basename(s: Bytes): (r: Bytes)
    ensures SLASH !in r
    ensures s != [] && s[|s| - 1] != SLASH ==> r != []
  {
    if SLASH !in s then s else Basename(s[FirstSlash(s) + 1..])
  }

  /** `directory` is a proper ancestor of `path`. */
  predicate Under(path: Bytes, directory: Bytes) {
    && directory != []
    && |directory| < |path|
    && path[..|directory|] == directory
    && path[|directory|] == SLASH
  }

  lemma {:induction false} ComponentsOfJoin(d: Bytes, r: Bytes)
    ensures Components(d + [SLASH] + r) == Components(d) + Components(r)
    decreases |d|
  {
    hide FirstSlash;
    var s := d + [SLASH] + r;
    assert s[|d|] == SLASH;
    if SLASH !in d {
      FirstSlashIs(s, |d|);
      assert s[..|d|] == d && s[|d| + 1..] == r;
    } else {
      var i := FirstSlash(d);
      FirstSlashIs(s, i);
      assert s[..i] == d[..i] && s[i + 1..] == d[i + 1..] + [SLASH] + r;
      ComponentsOfJoin(d[i + 1..], r);
      Associates(s[..i], Components(d[i + 1..]), Components(r));
    }
  }

  lemma Associates<T>(x: T, a: seq<T>, b: seq<T>)
    ensures [x] + (a + b) == ([x] + a) + b
  {}

  lemma FirstSlashIs(s: Bytes, i: nat)
    requires i < |s| && s[i] == SLASH && forall k :: 0 <= k < i ==> s[k] != SLASH
    ensures SLASH in s && FirstSlash(s) == i
  {}

  lemma ComponentsUnder(path: Bytes, directory: Bytes)
    requires Under(path, directory)
    ensures Components(directory) < Components(path)
  {
    assert path == directory + [SLASH] + path[|directory| + 1..];
    ComponentsOfJoin(directory, path[|directory| + 1..]);
  }

}

/** Which texts trimming and normalization take for the same one: blanks around it, `./` and
    slashes in front, slashes behind, and backslashes inside. */
module PathSpellings {
  import opened Basics
  import opened PathText

  // --------------------------------------------------------------- white space

  // White_Space characters of one, two and three bytes, by their code points.
  const NARROW: set<nat> := {9, 10, 11, 12, 13, 32}
  const LATIN: set<nat> := {0x85, 0xA0}
  const WIDE: set<nat> := {
    0x1680, 0x2000, 0x2001, 0x2002, 0x2003, 0x2004, 0x2005, 0x2006, 0x2007, 0x2008, 0x2009, 0x200A,
    0x2028, 0x2029, 0x202F, 0x205F, 0x3000
  }

  predicate Continues(b: byte) { 0x80 <= b <= 0xBF }

  /** What counts as white space at a position is exactly the UTF-8 encoding of a character
      with the White_Space property. */
  lemma SpaceIsUnicode(s: Bytes, i: nat)
    requires i < |s|
    ensures SpaceAt(s, i) == 1 <==> s[i] as nat in NARROW
    ensures i + 1 < |s| && 0xC0 <= s[i] <= 0xDF && Continues(s[i + 1]) ==>
              (SpaceAt(s, i) == 2 <==> 64 * (s[i] as nat - 0xC0) + (s[i + 1] as nat - 0x80) in LATIN)
    ensures i + 2 < |s| && 0xE0 <= s[i] <= 0xEF && Continues(s[i + 1]) && Continues(s[i + 2]) ==>
              (SpaceAt(s, i) == 3 <==>
                 4096 * (s[i] as nat - 0xE0) + 64 * (s[i + 1] as nat - 0x80) + (s[i + 2] as nat - 0x80) in WIDE)
  {}

  predicate Blank(s: Bytes) { forall i :: 0 <= i < |s| ==> s[i] as nat in NARROW }

  lemma {:induction false} TrimStartBlanks(before: Bytes, text: Bytes)
    requires Blank(before) && SpaceAtStart(text) == 0
    ensures TrimStart(before + text) == text
    decreases |before|
  {
    if before == [] {
      assert before + text == text;
    } else {
      assert (before + text)[0] == before[0];
      assert SpaceAtStart(before + text) == 1;
      assert (before + text)[1..] == before[1..] + text;
      TrimStartBlanks(before[1..], text);
    }
  }

  lemma {:induction false} TrimEndBlanks(text: Bytes, after: Bytes)
    requires Blank(after) && SpaceAtEnd(text) == 0
    ensures TrimEnd(text + after) == text
    decreases |after|
  {
    if after == [] {
      assert text + after == text;
    } else {
      var s := text + after;
      assert s[|s| - 1] == after[|after| - 1];
      assert SpaceAtEnd(s) == 1;
      assert s[..|s| - 1] == text + after[..|after| - 1];
      TrimEndBlanks(text, after[..|after| - 1]);
    }
  }

  /** Blanks around a text that begins and ends with no space are what trimming removes. */
  lemma TrimRemovesBlanks(before: Bytes, text: Bytes, after: Bytes)
    requires Blank(before) && Blank(after) && text != [] && SpaceAtStart(text) == 0 && SpaceAtEnd(text) == 0
    ensures Trim(before + text + after) == text
  {
    assert before + text + after == before + (text + after);
    assert SpaceAtStart(text + after) == 0 by {
      assert forall k :: 0 <= k < |after| ==> (text + after)[|text| + k] == after[k];
    }
    TrimStartBlanks(before, text + after);
    TrimEndBlanks(text, after);
  }

  // ------------------------------------------------------------- normalization

  function Slashes(n: nat): (s: Bytes)
    ensures |s| == n && forall i :: 0 <= i < n ==> s[i] == SLASH
  {
    seq(n, _ => SLASH)
  }

  function DotSlashes(n: nat): (s: Bytes)
    ensures |s| == 2 * n && (n > 0 ==> s[0] == DOT) && forall i :: 0 <= i < |s| ==> s[i] == DOT || s[i] == SLASH
  {
    if n == 0 then [] else [DOT, SLASH] + DotSlashes(n - 1)
  }

  lemma {:induction false} TrimDotSlashes(n: nat, text: Bytes)
    requires !([DOT, SLASH] <= text)
    ensures TrimDotSlash(DotSlashes(n) + text) == text
  {
    var s := DotSlashes(n) + text;
    if n == 0 {
      assert s == text;
    } else {
      var rest := DotSlashes(n - 1) + text;
      assert s == [DOT, SLASH] + rest;
      assert s[..2] == [DOT, SLASH] && s[2..] == rest;
      TrimDotSlashes(n - 1, text);
    }
  }

  lemma {:induction false} TrimStartSlashes(n: nat, text: Bytes)
    requires text != [] && text[0] != SLASH
    ensures TrimSlashStart(Slashes(n) + text) == text
  {
    var s := Slashes(n) + text;
    if n == 0 {
      assert s == text;
    } else {
      assert s[1..] == Slashes(n - 1) + text;
      TrimStartSlashes(n - 1, text);
    }
  }

  lemma {:induction false} TrimEndSlashes(text: Bytes, n: nat)
    requires text != [] && text[|text| - 1] != SLASH
    ensures TrimSlashEnd(text + Slashes(n)) == text
  {
    var s := text + Slashes(n);
    if n == 0 {
      assert s == text;
    } else {
      assert s[..|s| - 1] == text + Slashes(n - 1);
      TrimEndSlashes(text, n - 1);
    }
  }

  /** A path as a user may write it: with backslashes for slashes, `./` and slashes in front
      of it, slashes behind it and blanks around it. */
  function Spelled(before: Bytes, dots: nat, front: nat, text: Bytes, back: nat, after: Bytes): Bytes {
    before + (DotSlashes(dots) + (Slashes(front) + text + Slashes(back))) + after
  }

  lemma CoreShape(path: Bytes, front: nat, text: Bytes, back: nat)
    requires Normalized(path) && ForwardSlashes(text) == path && (path == [DOT] ==> front > 0 || back == 0)
    ensures var core := Slashes(front) + text + Slashes(back);
            !([DOT, SLASH] <= core) && ForwardSlashes(core) == Slashes(front) + (path + Slashes(back))
  {
    var core := Slashes(front) + text + Slashes(back);
    assert |text| == |path| && core[front] == text[0];
    if front > 0 {
      assert core[0] == SLASH;
    } else if |path| >= 2 {
      assert core[1] == text[1];
      assert !(path[0] == DOT && path[1] == SLASH);
    } else {
      assert back > 0 ==> path[0] != DOT;
    }
  }

  lemma DottedShape(dots: nat, front: nat, text: Bytes, back: nat)
    requires text != [] && SpaceAtStart(text) == 0 && SpaceAtEnd(text) == 0
    ensures var dotted := DotSlashes(dots) + (Slashes(front) + text + Slashes(back));
            dotted != [] && SpaceAtStart(dotted) == 0 && SpaceAtEnd(dotted) == 0
  {
    hide SpaceAtStart, SpaceAtEnd, Slashes, DotSlashes;
    var core := Slashes(front) + text + Slashes(back);
    StartKeepsSpace(text, Slashes(back));
    EndKeepsSpace(Slashes(front), text);
    LeadingSlash(Slashes(front), text + Slashes(back));
    TrailingSlash(Slashes(front) + text, Slashes(back));
    assert core == Slashes(front) + (text + Slashes(back));
    LeadingSlash(DotSlashes(dots), core);
    EndKeepsSpace(DotSlashes(dots), core);
  }

  lemma LeadingSlash(front: Bytes, rest: Bytes)
    requires SpaceAtStart(rest) == 0 && forall i :: 0 <= i < |front| ==> front[i] == DOT || front[i] == SLASH
    ensures SpaceAtStart(front + rest) == 0
  {
    if front == [] { assert front + rest == rest; } else { assert (front + rest)[0] == front[0]; }
  }

  lemma TrailingSlash(rest: Bytes, back: Bytes)
    requires SpaceAtEnd(rest) == 0 && forall i :: 0 <= i < |back| ==> back[i] == SLASH
    ensures SpaceAtEnd(rest + back) == 0
  {
    if back == [] {
      assert rest + back == rest;
    } else {
      assert (rest + back)[|rest + back| - 1] == SLASH;
      PrintableEndsAreNotSpace(rest + back);
    }
  }

  lemma StartKeepsSpace(text: Bytes, back: Bytes)
    requires text != [] && SpaceAtStart(text) == 0 && forall i :: 0 <= i < |back| ==> back[i] == DOT || back[i] == SLASH
    ensures SpaceAtStart(text + back) == 0
  {
    assert forall k :: 0 <= k < |back| ==> (text + back)[|text| + k] == back[k];
  }

  lemma EndKeepsSpace(front: Bytes, text: Bytes)
    requires text != [] && SpaceAtEnd(text) == 0 && forall i :: 0 <= i < |front| ==> front[i] == DOT || front[i] == SLASH
    ensures SpaceAtEnd(front + text) == 0
  {
    var s, n := front + text, |text|;
    assert s[|front| + n - 1] == text[n - 1];
    if n >= 2 { assert s[|front| + n - 2] == text[n - 2]; } else { assert front != [] ==> s[|front| - 1] == front[|front| - 1]; }
    if n >= 3 {
      assert s[|front| + n - 3] == text[n - 3];
    } else {
      assert |front| + n >= 3 ==> s[|front| + n - 3] == front[|front| + n - 3];
    }
  }

  /** Every such spelling of a normalized path normalizes to it. The path `.` needs a slash
      in front of it if one follows, since `./` is taken away. */
  lemma SpellingsNormalizeAlike(path: Bytes, before: Bytes, dots: nat, front: nat, text: Bytes, back: nat, after: Bytes)
    requires Normalized(path) && ForwardSlashes(text) == path && Blank(before) && Blank(after)
    requires SpaceAtStart(text) == 0 && SpaceAtEnd(text) == 0 && (path == [DOT] ==> front > 0 || back == 0)
    ensures NormalizePath(Spelled(before, dots, front, text, back, after)) == path
  {
    var core := Slashes(front) + text + Slashes(back);
    CoreShape(path, front, text, back);
    DottedShape(dots, front, text, back);
    hide SpaceAtStart, SpaceAtEnd, Trim, TrimDotSlash, TrimSlashStart, TrimSlashEnd, Slashes, DotSlashes, ForwardSlashes;
    TrimRemovesBlanks(before, DotSlashes(dots) + core, after);
    TrimDotSlashes(dots, core);
    assert path[0] != SLASH && (path + Slashes(back))[0] == path[0];
    TrimStartSlashes(front, path + Slashes(back));
    TrimEndSlashes(path, back);
  }
}

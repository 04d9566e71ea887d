/** Which header lines set a length and which name the chunked coding, by how they are
    written. */
module HttpLines {
  import opened Basics
  import opened PathText
  import opened PathSpellings
  import opened HttpHead

  // ------------------------------------------------------------------ field names

  /** The lower-case name with some of its letters in upper case. */
  predicate Spells(text: Bytes, name: Bytes) {
    |text| == |name| && forall i :: 0 <= i < |name| ==> text[i] == name[i] || (97 <= name[i] <= 122 && text[i] == name[i] - 32)
  }

  predicate LowerCase(name: Bytes) {
    forall i :: 0 <= i < |name| ==> name[i] == 45 || 97 <= name[i] <= 122
  }

  lemma NamesAreLowerCase()
    ensures LowerCase(CONTENT_LENGTH) && LowerCase(TRANSFER_ENCODING) && LowerCase(CHUNKED)
  {}

  lemma SameIsSpelled(text: Bytes, name: Bytes)
    requires LowerCase(name)
    ensures SameIgnoringCase(text, name) <==> Spells(text, name)
  {}

  /** What stands between the start of a header line and its value: blanks, the name, more
      blanks and the colon. */
  function Field(before: Bytes, text: Bytes, after: Bytes, rest: Bytes): Bytes {
    before + text + after + [COLON] + rest
  }

  lemma SpelledIsTrimmed(before: Bytes, text: Bytes, after: Bytes, name: Bytes)
    requires Blank(before) && Blank(after) && LowerCase(name) && name != [] && Spells(text, name)
    ensures Trim(before + text + after) == text
  {
    PrintableEndsAreNotSpace(text);
    TrimRemovesBlanks(before, text, after);
  }

  lemma ColonEndsName(field: Bytes, rest: Bytes)
    requires COLON !in field
    ensures First(field + [COLON] + rest, COLON) == |field|
  {
    var line := field + [COLON] + rest;
    assert line[|field|] == COLON;
    assert forall i :: 0 <= i < |field| ==> line[i] == field[i];
  }

  lemma FieldIsFound(before: Bytes, text: Bytes, after: Bytes, rest: Bytes, name: Bytes)
    requires Blank(before) && Blank(after) && LowerCase(name) && name != [] && Spells(text, name)
    ensures IsField(Field(before, text, after, rest), name) && FieldValue(Field(before, text, after, rest)) == rest
  {
    hide Trim, First;
    var field := before + text + after;
    var line := Field(before, text, after, rest);
    ColonEndsName(field, rest);
    assert line[..|field|] == field && line[|field| + 1..] == rest && line[|field|] == COLON;
    SpelledIsTrimmed(before, text, after, name);
    SameIsSpelled(text, name);
  }

  /** A line is such a field exactly when what stands before its first colon, trimmed,
      spells the name. */
  lemma FieldIsSpelled(line: Bytes, name: Bytes)
    requires LowerCase(name)
    ensures IsField(line, name) <==> COLON in line && Spells(Trim(line[..First(line, COLON)]), name)
  {
    hide Trim, First, Spells, SameIgnoringCase;
    if COLON in line { SameIsSpelled(Trim(line[..First(line, COLON)]), name); }
  }

  // ---------------------------------------------------------------------- numbers

  function Noughts(k: nat): (z: Bytes)
    ensures |z| == k && forall i :: 0 <= i < k ==> z[i] == 48
  {
    seq(k, _ => 48)
  }

  /** Digits are some noughts and the decimal text of their value. */
  lemma {:induction false} DigitsAreDecimal(digits: Bytes) returns (k: nat)
    requires digits != [] && AllDigits(digits)
    ensures digits == Noughts(k) + Decimal(Value(digits))
    decreases |digits|
  {
    var n := |digits| - 1;
    var start := digits[..n];
    assert digits == start + [digits[n]];
    if n == 0 {
      k := 0;
      assert Value(start) == 0;
    } else {
      k := DigitsAreDecimal(start);
      if Value(start) == 0 {
        k := k + 1;
        assert start == Noughts(k);
      }
    }
  }

  lemma {:induction false} NoughtsAddNothing(k: nat, digits: Bytes)
    requires AllDigits(digits)
    ensures AllDigits(Noughts(k) + digits) && Value(Noughts(k) + digits) == Value(digits)
    decreases |digits|, k
  {
    var all := Noughts(k) + digits;
    if digits == [] {
      assert all == Noughts(k);
      if k > 0 {
        assert all[..k - 1] == Noughts(k - 1) + [];
        NoughtsAddNothing(k - 1, []);
      }
    } else {
      var n := |digits| - 1;
      assert all[..|all| - 1] == Noughts(k) + digits[..n] && all[|all| - 1] == digits[n];
      NoughtsAddNothing(k, digits[..n]);
    }
  }

  /** A text is read as a length exactly when it is the decimal text of a 64-bit number,
      with noughts and one plus sign allowed in front. */
  lemma LengthIsDecimal(text: Bytes, n: nat)
    ensures ParseLength(text) == Some(n) <==>
              n < 0x1_0000_0000_0000_0000 && exists k: nat :: text == Noughts(k) + Decimal(n) || text == [PLUS] + (Noughts(k) + Decimal(n))
  {
    hide Value, Decimal, Noughts;
    var digits := if text != [] && text[0] == PLUS then text[1..] else text;
    if ParseLength(text) == Some(n) {
      var k := DigitsAreDecimal(digits);
      assert digits == Noughts(k) + Decimal(n);
    }
    forall k: nat | text == Noughts(k) + Decimal(n) || text == [PLUS] + (Noughts(k) + Decimal(n))
      ensures n < 0x1_0000_0000_0000_0000 ==> ParseLength(text) == Some(n) {
      NoughtsAddNothing(k, Decimal(n));
      DecimalValue(n);
      var all := Noughts(k) + Decimal(n);
      assert IsDigit(all[0]);
      assert digits == all;
    }
  }

  // ------------------------------------------------------------- lines that set

  /** Every spelling of a Content-Length line, in upper or lower case and with any blanks,
      sets the length. */
  lemma LengthLineSets(info: HeadInfo, before: Bytes, text: Bytes, after: Bytes, pad: Bytes, n: nat, end: Bytes)
    requires Blank(before) && Blank(after) && Blank(pad) && Blank(end) && Spells(text, CONTENT_LENGTH) && n < 0x1_0000_0000_0000_0000
    ensures Noted(info, Field(before, text, after, pad + Decimal(n) + end)) == info.(contentLength := Some(n))
  {
    NamesAreLowerCase();
    FieldIsFound(before, text, after, pad + Decimal(n) + end, CONTENT_LENGTH);
    var d := Decimal(n);
    assert IsDigit(d[0]) && IsDigit(d[|d| - 1]);
    PrintableEndsAreNotSpace(d);
    hide Decimal, ParseLength, Trim, IsField, Field;
    TrimRemovesBlanks(pad, d, end);
    LengthRoundTrip(n);
  }

  lemma {:induction false} PieceIsSplit(front: Bytes, piece: Bytes, back: Bytes) returns (i: nat)
    requires COMMA !in piece && (front == [] || front[|front| - 1] == COMMA) && (back == [] || back[0] == COMMA)
    ensures i < |Split(front + piece + back, COMMA)| && Split(front + piece + back, COMMA)[i] == piece
    decreases |front|
  {
    var s := front + piece + back;
    var j := First(s, COMMA);
    if front == [] {
      i := 0;
      if back == [] {
        assert s == piece;
      } else {
        assert s[|piece|] == COMMA;
        assert forall k :: 0 <= k < |piece| ==> s[k] == piece[k];
        assert s[..j] == piece;
      }
    } else {
      assert s[|front| - 1] == COMMA;
      assert j < |front|;
      assert s[j + 1..] == front[j + 1..] + piece + back;
      assert j + 1 < |front| ==> front[j + 1..][|front| - j - 2] == COMMA;
      i := PieceIsSplit(front[j + 1..], piece, back);
      i := i + 1;
    }
  }

  /** Every Transfer-Encoding line with `chunked` between its commas, in upper or lower case
      and with any blanks, sets the coding. */
  lemma ChunkedLineSets(info: HeadInfo, before: Bytes, text: Bytes, after: Bytes, front: Bytes, pad: Bytes, coding: Bytes, end: Bytes, back: Bytes)
    requires Blank(before) && Blank(after) && Blank(pad) && Blank(end) && Spells(text, TRANSFER_ENCODING) && Spells(coding, CHUNKED)
    requires (front == [] || front[|front| - 1] == COMMA) && (back == [] || back[0] == COMMA)
    ensures Noted(info, Field(before, text, after, front + (pad + coding + end) + back)) == info.(chunked := true)
  {
    NamesAreLowerCase();
    var value := front + (pad + coding + end) + back;
    FieldIsFound(before, text, after, value, TRANSFER_ENCODING);
    FieldsDiffer(Field(before, text, after, value));
    SpelledIsTrimmed(pad, coding, end, CHUNKED);
    SameIsSpelled(coding, CHUNKED);
    hide Trim, IsField, Field, Split, Spells, SameIgnoringCase;
    NoCommaInside(pad, coding, end);
    var i := PieceIsSplit(front, pad + coding + end, back);
    assert NamesChunked(value);
  }

  lemma NoCommaInside(pad: Bytes, coding: Bytes, end: Bytes)
    requires Blank(pad) && Blank(end) && Spells(coding, CHUNKED)
    ensures COMMA !in pad + coding + end
  {}
}

/** The header lines of a response: which Content-Length and which transfer coding
    they leave in force. */
module HttpHead {
  import opened Basics
  import opened PathText

  datatype HeadInfo = HeadInfo(contentLength: Option<nat>, chunked: bool)

  const LF: byte := 10
  const COLON: byte := 58
  const COMMA: byte := 44
  const PLUS: byte := 43

  // "content-length", "transfer-encoding" and "chunked".
  const CONTENT_LENGTH: Bytes := [99, 111, 110, 116, 101, 110, 116, 45, 108, 101, 110, 103, 116, 104]
  const TRANSFER_ENCODING: Bytes := [116, 114, 97, 110, 115, 102, 101, 114, 45, 101, 110, 99, 111, 100, 105, 110, 103]
  const CHUNKED: Bytes := [99, 104, 117, 110, 107, 101, 100]

  // ----------------------------------------------------------------------- text

  function First(s: Bytes, b: byte): (i: nat)
    ensures i <= |s| && (i < |s| ==> s[i] == b) && forall k :: 0 <= k < i ==> s[k] != b
  {
    if s == [] || s[0] == b then 0 else 1 + First(s[1..], b)
  }

  /** The pieces between the separators. */
  function Split(s: Bytes, b: byte): (parts: seq<Bytes>)
    ensures parts != []
    decreases |s|
  {
    var i := First(s, b);
    if i == |s| then [s] else [s[..i]] + Split(s[i + 1..], b)
  }

  function Lower(b: byte): byte { if 65 <= b <= 90 then b + 32 else b }

  predicate SameIgnoringCase(a: Bytes, b: Bytes) {
    |a| == |b| && forall i :: 0 <= i < |a| ==> Lower(a[i]) == Lower(b[i])
  }

  predicate IsDigit(b: byte) { 48 <= b <= 57 }

  predicate AllDigits(text: Bytes) { forall i :: 0 <= i < |text| ==> IsDigit(text[i]) }

  function Value(digits: Bytes): nat
    requires AllDigits(digits)
  {
    if digits == [] then 0
    else
      var last: int := digits[|digits| - 1];
      assert IsDigit(digits[|digits| - 1]);
      10 * Value(digits[..|digits| - 1]) + last - 48
  }

  /** A decimal number that fits in 64 bits, with an optional plus sign. */
  function ParseLength(text: Bytes): Option<nat> {
    var digits := if text != [] && text[0] == PLUS then text[1..] else text;
    if digits != [] && AllDigits(digits) && Value(digits) < 0x1_0000_0000_0000_0000
    then Some(Value(digits)) else None
  }

  predicate NamesChunked(value: Bytes) {
    exists i :: 0 <= i < |Split(value, COMMA)| && SameIgnoringCase(Trim(Split(value, COMMA)[i]), CHUNKED)
  }

  // ----------------------------------------------------------------- header lines

  predicate IsField(line: Bytes, name: Bytes) {
    COLON in line && SameIgnoringCase(Trim(line[..First(line, COLON)]), name)
  }

  function FieldValue(line: Bytes): Bytes
    requires COLON in line
  {
    line[First(line, COLON) + 1..]
  }

  function Noted(info: HeadInfo, line: Bytes): HeadInfo {
    if IsField(line, CONTENT_LENGTH) then info.(contentLength := ParseLength(Trim(FieldValue(line))))
    else if IsField(line, TRANSFER_ENCODING) then info.(chunked := NamesChunked(FieldValue(line)))
    else info
  }

  function NotedAll(info: HeadInfo, lines: seq<Bytes>): HeadInfo {
    if lines == [] then info else Noted(NotedAll(info, lines[..|lines| - 1]), lines[|lines| - 1])
  }

  /** The lines after the first. A carriage return at the end of a line belongs to its
      value, which is trimmed. */
  function HeaderLines(head: Bytes): seq<Bytes> { Split(head, LF)[1..] }

  function ParseHead(head: Bytes): HeadInfo { NotedAll(HeadInfo(None, false), HeaderLines(head)) }

  method ParseHeadLines(head: Bytes) returns (info: HeadInfo)
    ensures info == ParseHead(head)
  {
    hide SameIgnoringCase, First, ParseLength, NamesChunked, Split, Trim;
    var lines := HeaderLines(head);
    info := HeadInfo(None, false);
    for i := 0 to |lines|
      invariant info == NotedAll(HeadInfo(None, false), lines[..i])
    {
      assert lines[..i + 1][..i] == lines[..i];
      var line := lines[i];
      if IsField(line, CONTENT_LENGTH) {
        info := info.(contentLength := ParseLength(Trim(FieldValue(line))));
      } else if IsField(line, TRANSFER_ENCODING) {
        info := info.(chunked := NamesChunked(FieldValue(line)));
      }
    }
    assert lines[..|lines|] == lines;
  }

  // --------------------------------------------------------------- the last one wins

  lemma FieldsDiffer(line: Bytes)
    ensures !(IsField(line, CONTENT_LENGTH) && IsField(line, TRANSFER_ENCODING))
  {
    assert |CONTENT_LENGTH| != |TRANSFER_ENCODING|;
  }

  /** The length in force is that of the last Content-Length line, none if that line has
      no number or there is no such line; the coding is chunked exactly when the last
      Transfer-Encoding line names it. */
  lemma {:induction false} LastFieldWins(lines: seq<Bytes>, i: nat)
    requires i < |lines|
    ensures IsField(lines[i], CONTENT_LENGTH) && (forall k :: i < k < |lines| ==> !IsField(lines[k], CONTENT_LENGTH)) ==>
              NotedAll(HeadInfo(None, false), lines).contentLength == ParseLength(Trim(FieldValue(lines[i])))
    ensures IsField(lines[i], TRANSFER_ENCODING) && (forall k :: i < k < |lines| ==> !IsField(lines[k], TRANSFER_ENCODING)) ==>
              NotedAll(HeadInfo(None, false), lines).chunked == NamesChunked(FieldValue(lines[i]))
    decreases |lines|
  {
    hide IsField, ParseLength, NamesChunked, Trim;
    var n := |lines| - 1;
    FieldsDiffer(lines[n]);
    if i < n { LastFieldWins(lines[..n], i); }
  }

  lemma {:induction false} NoFieldNoInfo(lines: seq<Bytes>)
    ensures (forall k :: 0 <= k < |lines| ==> !IsField(lines[k], CONTENT_LENGTH)) ==>
              NotedAll(HeadInfo(None, false), lines).contentLength.None?
    ensures (forall k :: 0 <= k < |lines| ==> !IsField(lines[k], TRANSFER_ENCODING)) ==>
              !NotedAll(HeadInfo(None, false), lines).chunked
    decreases |lines|
  {
    hide IsField, ParseLength, NamesChunked, Trim;
    if lines != [] {
      FieldsDiffer(lines[|lines| - 1]);
      NoFieldNoInfo(lines[..|lines| - 1]);
    }
  }

  // ------------------------------------------------------------------ decimal texts

  function Decimal(n: nat): (d: Bytes)
    ensures d != [] && forall i :: 0 <= i < |d| ==> IsDigit(d[i])
  {
    if n < 10 then [48 + n] else Decimal(n / 10) + [48 + n % 10]
  }

  lemma {:induction false} DecimalValue(n: nat)
    ensures Value(Decimal(n)) == n
  {
    var d := Decimal(n);
    if n < 10 {
      assert d[..0] == [];
    } else {
      DecimalValue(n / 10);
      assert d[..|d| - 1] == Decimal(n / 10);
    }
  }

  /** Every 64-bit length is read back from its decimal text. */
  lemma LengthRoundTrip(n: nat)
    requires n < 0x1_0000_0000_0000_0000
    ensures ParseLength(Decimal(n)) == Some(n)
  {
    hide Value, Decimal;
    DecimalValue(n);
    assert IsDigit(Decimal(n)[0]);
  }
}

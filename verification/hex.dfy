/** Lowercase hexadecimal text: the names of partitions and artifact keys. */
module Hex {
  import opened Basics

  const KEY_HEX_LENGTH: nat := 64

  function Digit(n: nat): byte
    requires n < 16
  {
    if n < 10 then 48 + n else 97 + (n - 10)
  }

  predicate IsHexDigit(b: byte) {
    48 <= b <= 57 || 97 <= b <= 102
  }

  /** The closure `digit` of the decoder. */
  function DigitValue(b: byte): nat
    requires IsHexDigit(b)
  {
    if b <= 57 then b - 48 else b - 97 + 10
  }

  function Encoded(bytes: Bytes): (text: Bytes)
    ensures |text| == 2 * |bytes|
    ensures forall i :: 0 <= i < |bytes| ==> text[2 * i] == Digit(bytes[i] / 16) && text[2 * i + 1] == Digit(bytes[i] % 16)
  {
    if bytes == [] then []
    else
      var n := |bytes| - 1;
      Encoded(bytes[..n]) + [Digit(bytes[n] / 16), Digit(bytes[n] % 16)]
  }

  predicate IsHex(text: Bytes) {
    |text| % 2 == 0 && forall i :: 0 <= i < |text| ==> IsHexDigit(text[i])
  }

  method HexLower(bytes: Bytes) returns (text: Bytes)
    ensures text == Encoded(bytes)
    ensures IsHex(text)
  {
    text := [];
    for i := 0 to |bytes|
      invariant text == Encoded(bytes[..i])
    {
      assert bytes[..i + 1][..i] == bytes[..i];
      text := text + [Digit(bytes[i] / 16), Digit(bytes[i] % 16)];
    }
    assert bytes[..|bytes|] == bytes;
    EncodedIsHex(bytes);
  }

  lemma EncodedIsHex(bytes: Bytes)
    ensures IsHex(Encoded(bytes))
  {
    var text := Encoded(bytes);
    forall i | 0 <= i < |text| ensures IsHexDigit(text[i]) {
      assert i == 2 * (i / 2) || i == 2 * (i / 2) + 1;
      assert text[2 * (i / 2)] == Digit(bytes[i / 2] / 16);
    }
  }

  predicate ValidKey(text: Bytes) {
    |text| == KEY_HEX_LENGTH && forall i :: 0 <= i < |text| ==> IsHexDigit(text[i])
  }

  /** Fills the 32 key bytes pair by pair. Shifting the high digit by four and
      or-ing the low one is written as 16 * high + low, the digits being below 16. */
  method DecodeKey(text: Bytes) returns (key: array<byte>)
    requires ValidKey(text)
    ensures key.Length == 32 && Encoded(key[..]) == text
  {
    key := new byte[32](_ => 0);
    for i := 0 to 32
      invariant forall k :: 0 <= k < i ==>
        key[k] == 16 * DigitValue(text[2 * k]) + DigitValue(text[2 * k + 1])
    {
      key[i] := 16 * DigitValue(text[2 * i]) + DigitValue(text[2 * i + 1]);
    }
    PairsEncodeTo(key[..], text);
  }

  lemma PairEncodes(high: byte, low: byte)
    requires IsHexDigit(high) && IsHexDigit(low)
    ensures var b := 16 * DigitValue(high) + DigitValue(low);
            b < 256 && Digit(b / 16) == high && Digit(b % 16) == low
  {}

  lemma PairsEncodeTo(bytes: Bytes, text: Bytes)
    requires IsHex(text) && |text| == 2 * |bytes|
    requires forall k :: 0 <= k < |bytes| ==> bytes[k] == 16 * DigitValue(text[2 * k]) + DigitValue(text[2 * k + 1])
    ensures Encoded(bytes) == text
  {
    hide Encoded, Digit, DigitValue, IsHexDigit;
    var e := Encoded(bytes);
    forall k | 0 <= k < |bytes| ensures e[2 * k] == text[2 * k] && e[2 * k + 1] == text[2 * k + 1] {
      PairEncodes(text[2 * k], text[2 * k + 1]);
    }
    forall i | 0 <= i < |text| ensures e[i] == text[i] {
      assert i == 2 * (i / 2) || i == 2 * (i / 2) + 1;
    }
  }

  /** Different bytes have different texts, so decoding is the only inverse. */
  lemma EncodedIsInjective(a: Bytes, b: Bytes)
    requires Encoded(a) == Encoded(b)
    ensures a == b
  {
    assert |a| == |b|;
    forall i | 0 <= i < |a| ensures a[i] == b[i] {
      assert Encoded(a)[2 * i] == Digit(a[i] / 16) && Encoded(b)[2 * i] == Digit(b[i] / 16);
      assert Encoded(a)[2 * i + 1] == Digit(a[i] % 16) && Encoded(b)[2 * i + 1] == Digit(b[i] % 16);
    }
  }

  /** Decoding a key's text and encoding it again, in either order, is the
      identity. */
  method KeyRoundTrip(bytes: Bytes) returns (key: array<byte>)
    requires |bytes| == 32
    ensures key[..] == bytes
  {
    var text := HexLower(bytes);
    key := DecodeKey(text);
    EncodedIsInjective(key[..], bytes);
  }
}

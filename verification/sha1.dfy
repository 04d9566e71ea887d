/** The SHA-1 behind partition names: the loops over mutable arrays, against the
    definitions of FIPS 180-4. */
module Sha1 {
  import opened Basics
  import Hex

  type Word = bv32

  // ------------------------------------------- FIPS 180-4, sections 2.2.2 and 4.1.1

  function Rotl(n: nat, x: Word): Word
    requires 0 < n < 32
  {
    (x << n) | (x >> (32 - n))
  }

  /** Addition modulo 2^32. */
  function Add(x: Word, y: Word): Word { x + y }

  function Ch(x: Word, y: Word, z: Word): Word { (x & y) ^ (!x & z) }

  function Parity(x: Word, y: Word, z: Word): Word { x ^ y ^ z }

  function Maj(x: Word, y: Word, z: Word): Word { (x & y) ^ (x & z) ^ (y & z) }

  function F(t: nat, x: Word, y: Word, z: Word): Word {
    if t < 20 then Ch(x, y, z)
    else if t < 40 then Parity(x, y, z)
    else if t < 60 then Maj(x, y, z)
    else Parity(x, y, z)
  }

  function K(t: nat): Word {
    if t < 20 then 0x5a827999 else if t < 40 then 0x6ed9eba1 else if t < 60 then 0x8f1bbcdc else 0xca62c1d6
  }

  // ---------------------------------------------------------------- section 5.1.1

  function Zeros(k: nat): (z: Bytes)
    ensures |z| == k
  {
    seq(k, _ => 0)
  }

  /** The number of zero octets between the octet 0x80 and the length. */
  function ZeroOctets(n: nat): (k: nat)
    ensures k < 64 && (n + 1 + k) % 64 == 56
  {
    (55 - n) % 64
  }

  function LowOctet(n: nat): (o: byte)
    ensures o == n % 256
  {
    n % 256
  }

  function Power256(k: nat): (p: nat)
    ensures p > 0
  {
    if k == 0 then 1 else 256 * Power256(k - 1)
  }

  function BigEndian(n: nat, width: nat): (o: Bytes)
    ensures |o| == width
  {
    if width == 0 then [] else BigEndian(n / 256, width - 1) + [LowOctet(n)]
  }

  /** The eight octets of a length, most significant first. */
  function LengthOctets(bits: nat): (o: Bytes)
    ensures |o| == 8
  {
    BigEndian(bits, 8)
  }

  lemma LengthEndsBlock(n: nat)
    ensures (n + 1 + ZeroOctets(n) + 8) % 64 == 0
  {}

  function Padded(message: Bytes): (p: Bytes)
    ensures |p| % 64 == 0 && |p| > 0
  {
    hide Zeros, ZeroOctets, LengthOctets;
    LengthEndsBlock(|message|);
    message + [0x80] + Zeros(ZeroOctets(|message|)) + LengthOctets(8 * |message|)
  }

  /** The padding is the least one: no smaller number of zero octets lets the
      length end a block. */
  lemma PaddingIsLeast(n: nat, k: nat)
    requires (n + 1 + k + 8) % 64 == 0
    ensures ZeroOctets(n) <= k
  {}

  lemma {:induction false} BigEndianIsInjective(m: nat, n: nat, width: nat)
    requires m < Power256(width) && n < Power256(width)
    requires BigEndian(m, width) == BigEndian(n, width)
    ensures m == n
  {
    hide LowOctet;
    if width > 0 {
      var a, b := BigEndian(m, width), BigEndian(n, width);
      assert a[..width - 1] == BigEndian(m / 256, width - 1) && a[width - 1] == LowOctet(m);
      assert b[..width - 1] == BigEndian(n / 256, width - 1) && b[width - 1] == LowOctet(n);
      BigEndianIsInjective(m / 256, n / 256, width - 1);
    }
  }

  lemma SameLength(m: nat, n: nat)
    requires m < 0x1_0000_0000_0000_0000 && n < 0x1_0000_0000_0000_0000
    requires LengthOctets(m) == LengthOctets(n)
    ensures m == n
  {
    hide BigEndian;
    assert Power256(8) == 0x1_0000_0000_0000_0000;
    BigEndianIsInjective(m, n, 8);
  }

  /** No two messages have the same padding. */
  lemma PaddingIsInjective(p: Bytes, q: Bytes)
    requires |p| < 0x2000_0000_0000_0000 && |q| < 0x2000_0000_0000_0000
    requires Padded(p) == Padded(q)
    ensures p == q
  {
    hide Zeros, ZeroOctets, LengthOctets;
    var a, b := Padded(p), Padded(q);
    assert a[|a| - 8..] == LengthOctets(8 * |p|);
    assert b[|b| - 8..] == LengthOctets(8 * |q|);
    SameLength(8 * |p|, 8 * |q|);
    assert p == a[..|p|] && q == b[..|q|];
  }

  // ---------------------------------------------------------------- section 6.1.2

  datatype State = State(a: Word, b: Word, c: Word, d: Word, e: Word)

  const INITIAL := State(0x67452301, 0xefcdab89, 0x98badcfe, 0x10325476, 0xc3d2e1f0)

  function WordAt(block: Bytes, t: nat): Word
    requires |block| == 64 && t < 16
  {
    var a: int, b: int, c: int, d: int := block[4 * t], block[4 * t + 1], block[4 * t + 2], block[4 * t + 3];
    (0x100_0000 * a + 0x1_0000 * b + 0x100 * c + d) as Word
  }

  function Mixed(x: Word, y: Word, z: Word, w: Word): Word { x ^ y ^ z ^ w }

  function W(block: Bytes, t: nat): Word
    requires |block| == 64
  {
    if t < 16 then WordAt(block, t)
    else Rotl(1, Mixed(W(block, t - 3), W(block, t - 8), W(block, t - 14), W(block, t - 16)))
  }

  function Round(s: State, t: nat, w: Word): State {
    State(Add(Add(Add(Add(Rotl(5, s.a), F(t, s.b, s.c, s.d)), s.e), K(t)), w), s.a, Rotl(30, s.b), s.c, s.d)
  }

  function Rounds(s: State, block: Bytes, t: nat): State
    requires |block| == 64
  {
    if t == 0 then s else Round(Rounds(s, block, t - 1), t - 1, W(block, t - 1))
  }

  function Plus(s: State, r: State): State {
    State(Add(s.a, r.a), Add(s.b, r.b), Add(s.c, r.c), Add(s.d, r.d), Add(s.e, r.e))
  }

  function Compress(s: State, block: Bytes): State
    requires |block| == 64
  {
    Plus(s, Rounds(s, block, 80))
  }

  /** The hash value after the first `n` blocks. */
  function HashBlocks(message: Bytes, n: nat): State
    requires 64 * n <= |message|
  {
    if n == 0 then INITIAL
    else Compress(HashBlocks(message, n - 1), message[64 * (n - 1)..64 * n])
  }

  function WordOctets(w: Word): (o: Bytes)
    ensures |o| == 4
  {
    var n := w as nat;
    [LowOctet(n / 0x100_0000), LowOctet(n / 0x1_0000), LowOctet(n / 0x100), LowOctet(n)]
  }

  function OctetsOf(words: seq<Word>): (o: Bytes)
    ensures |o| == 4 * |words|
  {
    if words == [] then [] else OctetsOf(words[..|words| - 1]) + WordOctets(words[|words| - 1])
  }

  function Output(s: State): (o: Bytes)
    ensures |o| == 20
  {
    OctetsOf([s.a, s.b, s.c, s.d, s.e])
  }

  function Digest(message: Bytes): (d: Bytes)
    ensures |d| == 20
  {
    Output(HashBlocks(Padded(message), |Padded(message)| / 64))
  }

  // ------------------------------------------------------------ the forms in the code

  lemma ChoiceIdentity(x: Word, y: Word, z: Word)
    ensures (x & y) | (!x & z) == (x & y) ^ (!x & z)
  {}

  lemma MajorityIdentity(x: Word, y: Word, z: Word)
    ensures (x & y) | (x & z) | (y & z) == (x & y) ^ (x & z) ^ (y & z)
  {}

  function ChooseByOr(b: Word, c: Word, d: Word): (f: Word)
    ensures f == Ch(b, c, d)
  {
    ChoiceIdentity(b, c, d);
    (b & c) | (!b & d)
  }

  function MajorityByOr(b: Word, c: Word, d: Word): (f: Word)
    ensures f == Maj(b, c, d)
  {
    MajorityIdentity(b, c, d);
    (b & c) | (b & d) | (c & d)
  }

  lemma RotateIsRotl(x: Word)
    ensures x.RotateLeft(1) == Rotl(1, x) && x.RotateLeft(5) == Rotl(5, x) && x.RotateLeft(30) == Rotl(30, x)
  {}

  lemma OneMoreZero(n: nat, k: nat)
    requires k <= ZeroOctets(n) && (n + 1 + k) % 64 != 56
    ensures k < ZeroOctets(n) && Zeros(k + 1) == Zeros(k) + [0]
  {}

  lemma ZerosEnd(n: nat, k: nat)
    requires k <= ZeroOctets(n) && (n + 1 + k) % 64 == 56
    ensures k == ZeroOctets(n)
  {}

  /** `bit_len` is a 64-bit product; below 2^61 bytes it does not wrap. */
  method PadMessage(input: Bytes) returns (message: Bytes)
    requires |input| < 0x2000_0000_0000_0000
    ensures message == Padded(input)
  {
    hide Zeros, ZeroOctets, LengthOctets;
    var bitLength := (|input| * 8) % 0x1_0000_0000_0000_0000;
    message := input + [0x80];
    ghost var k := 0;
    while |message| % 64 != 56
      invariant k <= ZeroOctets(|input|)
      invariant message == input + [0x80] + Zeros(k)
      decreases ZeroOctets(|input|) - k
    {
      OneMoreZero(|input|, k);
      message := message + [0];
      k := k + 1;
    }
    ZerosEnd(|input|, k);
    message := message + LengthOctets(bitLength);
  }

  method FillSchedule(chunk: Bytes) returns (words: array<Word>)
    requires |chunk| == 64
    ensures words.Length == 80 && forall t :: 0 <= t < 80 ==> words[t] == W(chunk, t)
    ensures fresh(words)
  {
    hide WordAt, Rotl, Mixed;
    words := new Word[80](_ => 0);
    for index := 0 to 16
      invariant forall t :: 0 <= t < index ==> words[t] == W(chunk, t)
    {
      words[index] := WordAt(chunk, index);
    }
    for index := 16 to 80
      invariant forall t :: 0 <= t < index ==> words[t] == W(chunk, t)
    {
      var mixed := Mixed(words[index - 3], words[index - 8], words[index - 14], words[index - 16]);
      RotateIsRotl(mixed);
      words[index] := mixed.RotateLeft(1);
    }
  }

  method RoundFunction(index: nat, b: Word, c: Word, d: Word) returns (f: Word, k: Word)
    requires index < 80
    ensures f == F(index, b, c, d) && k == K(index)
  {
    hide Ch, Maj, Parity, ChooseByOr, MajorityByOr;
    if index <= 19 {
      f, k := ChooseByOr(b, c, d), 0x5a827999;
    } else if index <= 39 {
      f, k := Parity(b, c, d), 0x6ed9eba1;
    } else if index <= 59 {
      f, k := MajorityByOr(b, c, d), 0x8f1bbcdc;
    } else {
      f, k := Parity(b, c, d), 0xca62c1d6;
    }
  }

  method RunRound(index: nat, s: State, word: Word) returns (r: State)
    requires index < 80
    ensures r == Round(s, index, word)
  {
    hide Rotl, F, K, Add;
    var State(a, b, c, d, e) := s;
    var f, k := RoundFunction(index, b, c, d);
    RotateIsRotl(a);
    RotateIsRotl(b);
    var temp := Add(Add(Add(Add(a.RotateLeft(5), f), e), k), word);
    e := d;
    d := c;
    c := b.RotateLeft(30);
    b := a;
    a := temp;
    r := State(a, b, c, d, e);
  }

  method CompressChunk(h: State, chunk: Bytes) returns (r: State)
    requires |chunk| == 64
    ensures r == Compress(h, chunk)
  {
    hide Round, Plus, W, Add;
    var words := FillSchedule(chunk);
    var s := h;
    for index := 0 to 80
      invariant forall t :: 0 <= t < 80 ==> words[t] == W(chunk, t)
      invariant s == Rounds(h, chunk, index)
    {
      s := RunRound(index, s, words[index]);
    }
    r := Plus(h, s);
  }

  method WriteOutput(h: State) returns (output: array<byte>)
    ensures output[..] == Output(h)
  {
    hide WordOctets;
    output := new byte[20](_ => 0);
    var words := [h.a, h.b, h.c, h.d, h.e];
    for index := 0 to 5
      invariant output[..4 * index] == OctetsOf(words[..index])
    {
      CopyOctets(output, index, WordOctets(words[index]));
      assert words[..index + 1][..index] == words[..index];
    }
    assert words[..5] == words && output[..20] == output[..];
  }

  method CopyOctets(output: array<byte>, index: nat, octets: Bytes)
    requires |octets| == 4 && 4 * index + 4 <= output.Length
    modifies output
    ensures output[..4 * index + 4] == old(output[..4 * index]) + octets
  {
    output[4 * index], output[4 * index + 1] := octets[0], octets[1];
    output[4 * index + 2], output[4 * index + 3] := octets[2], octets[3];
  }

  /** SHA-1 of every input whose bit length fits in 64 bits. */
  method Sum(input: Bytes) returns (output: array<byte>)
    requires |input| < 0x2000_0000_0000_0000
    ensures output[..] == Digest(input)
  {
    hide Compress, Output, Padded;
    var message := PadMessage(input);
    var h := INITIAL;
    for i := 0 to |message| / 64
      invariant h == HashBlocks(message, i)
    {
      h := CompressChunk(h, message[64 * i..64 * i + 64]);
    }
    output := WriteOutput(h);
  }

  /** The name of a path's partition: ten digest octets in hexadecimal. */
  method PartitionId(path: Bytes) returns (id: Bytes)
    requires |path| < 0x2000_0000_0000_0000
    ensures id == Hex.Encoded(Digest(path)[..10])
    ensures |id| == 20 && Hex.IsHex(id)
  {
    hide Digest;
    var digest := Sum(path);
    id := Hex.HexLower(digest[..][..10]);
  }

  /** Two paths share a partition exactly when their digests agree on ten octets. */
  lemma SamePartitionExactly(p: Bytes, q: Bytes)
    ensures Hex.Encoded(Digest(p)[..10]) == Hex.Encoded(Digest(q)[..10]) <==> Digest(p)[..10] == Digest(q)[..10]
  {
    hide Digest;
    if Hex.Encoded(Digest(p)[..10]) == Hex.Encoded(Digest(q)[..10]) {
      Hex.EncodedIsInjective(Digest(p)[..10], Digest(q)[..10]);
    }
  }

  // ---------------------------------------------------------------- the constants

  /** The round constants are the integer parts of 2^30 times the square roots of 2, 3, 5
      and 10. */
  lemma RoundConstantsAreRoots(t: nat)
    requires t < 80
    ensures var square := if t < 20 then 2 else if t < 40 then 3 else if t < 60 then 5 else 10;
            var k := K(t) as nat;
            k * k <= square * 0x1000_0000_0000_0000 < (k + 1) * (k + 1)
  {}

  function LittleOctet(w: Word, k: nat): nat
    requires k < 4
  {
    ((w >> (8 * k)) & 0xff) as nat
  }

  /** Octet by octet, least significant first, the initial words spell the hexadecimal
      digits upwards, then downwards; in the last word the high digits count down from 15
      and the low ones up. */
  lemma InitialCounts(k: nat)
    requires k < 4
    ensures LittleOctet(INITIAL.a, k) == 16 * (2 * k) + 2 * k + 1
    ensures LittleOctet(INITIAL.b, k) == 16 * (2 * k + 8) + 2 * k + 9
    ensures LittleOctet(INITIAL.c, k) == 255 - (16 * (2 * k) + 2 * k + 1)
    ensures LittleOctet(INITIAL.d, k) == 255 - (16 * (2 * k + 8) + 2 * k + 9)
    ensures LittleOctet(INITIAL.e, k) == 16 * (15 - k) + k
  {
    if k == 0 {} else if k == 1 {} else if k == 2 {} else {}
  }
}

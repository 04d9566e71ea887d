/** What the word operations of SHA-1 compute: sums, octets and bits, each by a reading of
    its own. */
module Sha1Words {
  import opened Basics
  import opened Sha1

  // ------------------------------------------------------------------------- octets

  /** The number that octets spell, most significant first. */
  function Spelled(octets: Bytes): nat {
    if octets == [] then 0 else 256 * Spelled(octets[..|octets| - 1]) + octets[|octets| - 1] as nat
  }

  lemma {:induction false} BigEndianSpells(n: nat, width: nat)
    ensures Spelled(BigEndian(n, width)) == n % Power256(width)
  {
    if width > 0 {
      var o := BigEndian(n, width);
      assert o[..width - 1] == BigEndian(n / 256, width - 1);
      BigEndianSpells(n / 256, width - 1);
      Remainder(n, Power256(width - 1));
    }
  }

  lemma Remainder(n: nat, p: nat)
    requires p > 0
    ensures 256 * (n / 256 % p) + n % 256 == n % (256 * p)
  {
    var q, m := n / 256 / p, n / 256 % p;
    assert n / 256 == q * p + m;
    assert n == (256 * p) * q + (256 * m + n % 256);
    assert 256 * m + n % 256 < 256 * p;
    DivideUniquely(n, 256 * p, q, 256 * m + n % 256);
  }

  lemma DivideUniquely(n: nat, d: nat, q: nat, r: nat)
    requires d > 0 && r < d && n == d * q + r
    ensures n % d == r
  {
    Quotient(d, n / d - q, n % d, r);
  }

  lemma Quotient(d: nat, e: int, a: nat, b: nat)
    requires a < d && b < d && d * e + a == b
    ensures a == b
  {
    Multiple(d, e);
  }

  lemma Multiple(d: nat, e: int)
    ensures e >= 1 ==> d * e >= d
    ensures e <= -1 ==> d * e + d <= 0
  {}

  /** The last eight octets of a padded message spell its length in bits. */
  lemma LengthIsSpelled(message: Bytes)
    requires |message| < 0x2000_0000_0000_0000
    ensures var p := Padded(message);
            |p| >= |message| + 9 && p[..|message|] == message && p[|message|] == 0x80
            && Spelled(p[|p| - 8..]) == 8 * |message|
            && forall i :: |message| < i < |p| - 8 ==> p[i] == 0
  {
    hide LengthOctets, BigEndian;
    var p := Padded(message);
    assert p[|p| - 8..] == LengthOctets(8 * |message|);
    assert Power256(8) == 0x1_0000_0000_0000_0000;
    EightOctetsSpell(8 * |message|);
  }

  lemma EightOctetsSpell(bits: nat)
    requires bits < 0x1_0000_0000_0000_0000
    ensures Spelled(LengthOctets(bits)) == bits
  {
    hide BigEndian;
    assert Power256(8) == 0x1_0000_0000_0000_0000;
    BigEndianSpells(bits, 8);
  }

  /** A word of a block is the number that its four octets spell. */
  lemma WordIsSpelled(block: Bytes, t: nat)
    requires |block| == 64 && t < 16
    ensures var octets := block[4 * t..4 * t + 4];
            Spelled(octets) < 0x1_0000_0000 && WordAt(block, t) == Spelled(octets) as Word
  {
    FourSpell(block[4 * t..4 * t + 4]);
  }

  lemma FourSpell(o: Bytes)
    requires |o| == 4
    ensures Spelled(o) == 0x100_0000 * (o[0] as nat) + 0x1_0000 * (o[1] as nat) + 0x100 * (o[2] as nat) + o[3] as nat
  {
    var three, two, one := o[..3], o[..3][..2], o[..3][..2][..1];
    assert Spelled(one[..0]) == 0;
    assert Spelled(one) == o[0] as nat;
    assert Spelled(two) == 256 * (o[0] as nat) + o[1] as nat;
    assert Spelled(three) == 256 * Spelled(two) + o[2] as nat;
  }

  /** The digest spells its five words, most significant octets first. */
  lemma DigestIsSpelled(s: State, k: nat)
    requires k < 5
    ensures Output(s)[4 * k..4 * k + 4] == BigEndian([s.a, s.b, s.c, s.d, s.e][k] as nat, 4)
  {
    hide WordOctets, BigEndian;
    var words := [s.a, s.b, s.c, s.d, s.e];
    OctetsAt(words, k);
    OctetsAreBigEndian(words[k]);
  }

  lemma {:induction false} OctetsAt(words: seq<Word>, k: nat)
    requires k < |words|
    ensures OctetsOf(words)[4 * k..4 * k + 4] == WordOctets(words[k])
    decreases |words|
  {
    hide WordOctets;
    var n := |words| - 1;
    assert OctetsOf(words) == OctetsOf(words[..n]) + WordOctets(words[n]);
    if k < n {
      OctetsAt(words[..n], k);
      assert OctetsOf(words)[4 * k..4 * k + 4] == OctetsOf(words[..n])[4 * k..4 * k + 4];
    }
  }

  lemma OctetsAreBigEndian(w: Word)
    ensures WordOctets(w) == BigEndian(w as nat, 4)
  {
    FourOctets(w as nat);
  }

  lemma FourOctets(n: nat)
    ensures BigEndian(n, 4) == [LowOctet(n / 0x100_0000), LowOctet(n / 0x1_0000), LowOctet(n / 0x100), LowOctet(n)]
  {
    hide LowOctet;
    assert n / 256 / 256 == n / 0x1_0000 && n / 256 / 256 / 256 == n / 0x100_0000;
    assert BigEndian(n / 0x100_0000, 1) == BigEndian(n / 0x100_0000 / 256, 0) + [LowOctet(n / 0x100_0000)];
    assert BigEndian(n / 0x1_0000, 2) == BigEndian(n / 0x100_0000, 1) + [LowOctet(n / 0x1_0000)];
    assert BigEndian(n / 0x100, 3) == BigEndian(n / 0x1_0000, 2) + [LowOctet(n / 0x100)];
  }

  // ------------------------------------------------------------------- sums and bits

  /** Addition counts up, and so wraps as the machine's does. */
  lemma AddCounts(x: Word, y: Word)
    ensures Add(x, 0) == x && Add(x, y + 1) == Add(x, y) + 1
  {}

  /** Choice takes the second word where the first has ones, and the third elsewhere. */
  lemma ChooseByBits(x: Word, y: Word, z: Word)
    ensures Ch(x, y, z) & x == y & x && Ch(x, y, z) & !x == z & !x
  {}

  /** Majority is the first word where two others agree with it or either does. */
  lemma MajorityByBits(x: Word, y: Word, z: Word)
    ensures (Maj(x, y, z) ^ x) & !(x ^ y) == 0 && (Maj(x, y, z) ^ z) & (x ^ y) == 0
  {}

  /** Parity is the first word where the others agree, and its complement elsewhere. */
  lemma ParityByBits(x: Word, y: Word, z: Word)
    ensures (Parity(x, y, z) ^ x) & !(y ^ z) == 0 && (Parity(x, y, z) ^ !x) & (y ^ z) == 0
  {}

  lemma MixedByBits(x: Word, y: Word, z: Word, w: Word)
    ensures (Mixed(x, y, z, w) ^ (x ^ y)) & !(z ^ w) == 0 && (Mixed(x, y, z, w) ^ !(x ^ y)) & (z ^ w) == 0
  {}

  // ------------------------------------------------------------------------ the chain

  /** Words of two states are added in their places: either order gives the same, and
      noughts add nothing. */
  lemma PlusAdds(s: State, r: State)
    ensures Plus(s, r) == Plus(r, s) && Plus(s, State(0, 0, 0, 0, 0)) == s
  {
    AddCommutes(s, r);
    AddsNothing(s);
    hide Add;
  }

  lemma AddCommutes(s: State, r: State)
    ensures Add(s.a, r.a) == Add(r.a, s.a) && Add(s.b, r.b) == Add(r.b, s.b) && Add(s.c, r.c) == Add(r.c, s.c)
    ensures Add(s.d, r.d) == Add(r.d, s.d) && Add(s.e, r.e) == Add(r.e, s.e)
  {}

  lemma AddsNothing(s: State)
    ensures Add(s.a, 0) == s.a && Add(s.b, 0) == s.b && Add(s.c, 0) == s.c && Add(s.d, 0) == s.d && Add(s.e, 0) == s.e
  {}
}

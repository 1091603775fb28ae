/** Base64 texts bit by bit: what the encoder and the decoder do, said of the alphabet and of bit positions. */
module Base64Format {
  import opened Base64

  /** Table 1 of section 4 of RFC 4648. */
  const ALPHABET := "ABCDEFGHIJKLMNOPQRSTUVWXYZ" + "abcdefghijklmnopqrstuvwxyz" + "0123456789+/"

  lemma UpperCase(i: nat)
    requires i < 26
    ensures ALPHABET[i] == (i + 'A' as int) as char
  {
  }

  lemma LowerCase(i: nat)
    requires i < 26
    ensures ALPHABET[26 + i] == (i + 'a' as int) as char
  {
  }

  lemma LetterIs(i: nat)
    requires i < 64
    ensures |ALPHABET| == 64 && Letter(i) == ALPHABET[i]
  {
    if i < 26 {
      UpperCase(i);
    } else if i < 52 {
      LowerCase(i - 26);
    }
  }

  /** A character's value is its place in the alphabet; 64 means that it has none. */
  lemma IndexIs(c: char)
    ensures Index(c) < 64 <==> c in ALPHABET
    ensures Index(c) < 64 ==> Index(c) < |ALPHABET| && ALPHABET[Index(c)] == c
  {
    hide ALPHABET;
    LetterIs(0);
    if Index(c) < 64 {
      LetterIs(Index(c));
      assert Letter(Index(c)) == c;
    }
    if c in ALPHABET {
      var i :| 0 <= i < |ALPHABET| && ALPHABET[i] == c;
      LetterIs(i);
      IndexOfLetter(i);
    }
  }

  lemma NoPadding(i: nat)
    requires i < 64
    ensures |ALPHABET| == 64 && ALPHABET[i] != '='
  {
    hide ALPHABET;
    LetterIs(i);
    IndexOfLetter(i);
  }

  // ---------------------------------------------------------------- bits

  function Shifted(x: nat, k: nat): nat {
    if k == 0 then x else Shifted(x / 2, k - 1)
  }

  /** Bit i of an eight-bit value, the highest first. */
  function OfEight(x: nat, i: nat): nat
    requires i < 8
  {
    Shifted(x, 7 - i) % 2
  }

  /** Bit i of a six-bit value. */
  function OfSix(x: nat, i: nat): nat
    requires i < 6
  {
    Shifted(x, 5 - i) % 2
  }

  /** Bit i of the bytes read as one string of bits, the highest bit of each first; zero behind the end. */
  function ByteBit(s: seq<nat>, i: nat): nat {
    if i / 8 < |s| then OfEight(s[i / 8], i % 8) else 0
  }

  /** The same for values of six bits. */
  function SextetBit(v: seq<nat>, i: nat): nat {
    if i / 6 < |v| then OfSix(v[i / 6], i % 6) else 0
  }

  function SixFrom(s: seq<nat>, i: nat): nat {
    32 * ByteBit(s, i) + 16 * ByteBit(s, i + 1) + 8 * ByteBit(s, i + 2) + 4 * ByteBit(s, i + 3)
    + 2 * ByteBit(s, i + 4) + ByteBit(s, i + 5)
  }

  function EightFrom(v: seq<nat>, i: nat): nat {
    128 * SextetBit(v, i) + 64 * SextetBit(v, i + 1) + 32 * SextetBit(v, i + 2) + 16 * SextetBit(v, i + 3)
    + 8 * SextetBit(v, i + 4) + 4 * SextetBit(v, i + 5) + 2 * SextetBit(v, i + 6) + SextetBit(v, i + 7)
  }

  lemma Shifts(x: nat)
    ensures Shifted(x, 0) == x && Shifted(x, 1) == x / 2 && Shifted(x, 2) == x / 4 && Shifted(x, 3) == x / 8
    ensures Shifted(x, 4) == x / 16 && Shifted(x, 5) == x / 32 && Shifted(x, 6) == x / 64 && Shifted(x, 7) == x / 128
  {
    assert x / 4 == x / 2 / 2 && x / 8 == x / 4 / 2 && x / 16 == x / 8 / 2 && x / 32 == x / 16 / 2;
    assert x / 64 == x / 32 / 2 && x / 128 == x / 64 / 2;
    var a, b, c, d, e, f := x / 2, x / 4, x / 8, x / 16, x / 32, x / 64;
    assert Shifted(x, 7) == Shifted(a, 6) == Shifted(b, 5) == Shifted(c, 4) == Shifted(d, 3) == Shifted(e, 2);
    assert Shifted(x, 6) == Shifted(a, 5) == Shifted(b, 4) == Shifted(c, 3) == Shifted(d, 2) == Shifted(e, 1);
    assert Shifted(x, 5) == Shifted(a, 4) == Shifted(b, 3) == Shifted(c, 2) == Shifted(d, 1);
    assert Shifted(x, 4) == Shifted(a, 3) == Shifted(b, 2) == Shifted(c, 1);
  }

  /** A byte from its bits, and what its halves of various widths are. */
  lemma ByteParts(x: nat)
    requires x < 256
    ensures x / 4 == 32 * OfEight(x, 0) + 16 * OfEight(x, 1) + 8 * OfEight(x, 2) + 4 * OfEight(x, 3)
            + 2 * OfEight(x, 4) + OfEight(x, 5)
    ensures x % 4 == 2 * OfEight(x, 6) + OfEight(x, 7)
    ensures x / 16 == 8 * OfEight(x, 0) + 4 * OfEight(x, 1) + 2 * OfEight(x, 2) + OfEight(x, 3)
    ensures x % 16 == 8 * OfEight(x, 4) + 4 * OfEight(x, 5) + 2 * OfEight(x, 6) + OfEight(x, 7)
    ensures x / 64 == 2 * OfEight(x, 0) + OfEight(x, 1)
    ensures x % 64 == 32 * OfEight(x, 2) + 16 * OfEight(x, 3) + 8 * OfEight(x, 4) + 4 * OfEight(x, 5)
            + 2 * OfEight(x, 6) + OfEight(x, 7)
  {
    hide Shifted;
    Shifts(x);
    Halves(x);
  }

  lemma Halves(x: nat)
    requires x < 256
    ensures x == 2 * (x / 2) + x % 2 && x / 2 == 2 * (x / 4) + x / 2 % 2 && x / 4 == 2 * (x / 8) + x / 4 % 2
    ensures x / 8 == 2 * (x / 16) + x / 8 % 2 && x / 16 == 2 * (x / 32) + x / 16 % 2
    ensures x / 32 == 2 * (x / 64) + x / 32 % 2 && x / 64 == 2 * (x / 128) + x / 64 % 2 && x / 128 == x / 128 % 2
    ensures x % 4 == x - 4 * (x / 4) && x % 16 == x - 16 * (x / 16) && x % 64 == x - 64 * (x / 64)
  {
    Half(x, 1);
    Half(x, 2);
    Half(x, 4);
    Half(x, 8);
    Half(x, 16);
    Half(x, 32);
    Half(x, 64);
  }

  lemma Half(x: nat, n: nat)
    requires n in {1, 2, 4, 8, 16, 32, 64}
    ensures x / n == 2 * (x / (2 * n)) + x / n % 2
  {
    assert x / n / 2 == x / (2 * n);
  }

  /** Bit i of byte k, a missing byte being zero. */
  lemma BitOf(s: seq<nat>, k: nat, x: nat, i: nat)
    requires x == (if k < |s| then s[k] else 0) && i < 8
    ensures ByteBit(s, 8 * k + i) == OfEight(x, i)
  {
    hide Shifted;
    ZeroBits();
    assert (8 * k + i) / 8 == k && (8 * k + i) % 8 == i;
  }

  lemma FirstByte(s: seq<nat>, x: nat)
    requires x == (if |s| > 0 then s[0] else 0) && x < 256
    ensures 32 * ByteBit(s, 0) + 16 * ByteBit(s, 1) + 8 * ByteBit(s, 2) + 4 * ByteBit(s, 3) + 2 * ByteBit(s, 4)
            + ByteBit(s, 5) == x / 4
    ensures 2 * ByteBit(s, 6) + ByteBit(s, 7) == x % 4
  {
    hide OfEight, ByteBit;
    ByteParts(x);
    BitOf(s, 0, x, 0);
    BitOf(s, 0, x, 1);
    BitOf(s, 0, x, 2);
    BitOf(s, 0, x, 3);
    BitOf(s, 0, x, 4);
    BitOf(s, 0, x, 5);
    BitOf(s, 0, x, 6);
    BitOf(s, 0, x, 7);
  }

  lemma SecondByte(s: seq<nat>, y: nat)
    requires y == (if |s| > 1 then s[1] else 0) && y < 256
    ensures 8 * ByteBit(s, 8) + 4 * ByteBit(s, 9) + 2 * ByteBit(s, 10) + ByteBit(s, 11) == y / 16
    ensures 8 * ByteBit(s, 12) + 4 * ByteBit(s, 13) + 2 * ByteBit(s, 14) + ByteBit(s, 15) == y % 16
  {
    hide OfEight, ByteBit;
    ByteParts(y);
    BitOf(s, 1, y, 0);
    BitOf(s, 1, y, 1);
    BitOf(s, 1, y, 2);
    BitOf(s, 1, y, 3);
    BitOf(s, 1, y, 4);
    BitOf(s, 1, y, 5);
    BitOf(s, 1, y, 6);
    BitOf(s, 1, y, 7);
  }

  lemma ThirdByte(s: seq<nat>, z: nat)
    requires z == (if |s| > 2 then s[2] else 0) && z < 256
    ensures 2 * ByteBit(s, 16) + ByteBit(s, 17) == z / 64
    ensures 32 * ByteBit(s, 18) + 16 * ByteBit(s, 19) + 8 * ByteBit(s, 20) + 4 * ByteBit(s, 21) + 2 * ByteBit(s, 22)
            + ByteBit(s, 23) == z % 64
  {
    hide OfEight, ByteBit;
    ByteParts(z);
    BitOf(s, 2, z, 0);
    BitOf(s, 2, z, 1);
    BitOf(s, 2, z, 2);
    BitOf(s, 2, z, 3);
    BitOf(s, 2, z, 4);
    BitOf(s, 2, z, 5);
    BitOf(s, 2, z, 6);
    BitOf(s, 2, z, 7);
  }

  /** The first four sextets, in terms of the first three bytes. */
  lemma FirstSix(s: seq<nat>, x: nat, y: nat, z: nat)
    requires s != [] && x == s[0] < 256
    requires y == (if |s| > 1 then s[1] else 0) && y < 256 && z == (if |s| > 2 then s[2] else 0) && z < 256
    ensures SixFrom(s, 0) == x / 4 && SixFrom(s, 6) == x % 4 * 16 + y / 16
    ensures SixFrom(s, 12) == y % 16 * 4 + z / 64 && SixFrom(s, 18) == z % 64
  {
    hide ByteBit;
    FirstByte(s, x);
    SecondByte(s, y);
    ThirdByte(s, z);
  }

  lemma ZeroBits()
    ensures forall k: nat | k < 8 :: Shifted(0, k) == 0
  {
    Shifts(0);
  }

  lemma SixLater(s: seq<nat>, i: nat)
    requires |s| >= 3
    ensures SixFrom(s, i + 24) == SixFrom(s[3..], i)
  {
    hide Shifted;
    BitLater(s, i);
    BitLater(s, i + 1);
    BitLater(s, i + 2);
    BitLater(s, i + 3);
    BitLater(s, i + 4);
    BitLater(s, i + 5);
  }

  lemma BitLater(s: seq<nat>, i: nat)
    requires |s| >= 3
    ensures ByteBit(s, i + 24) == ByteBit(s[3..], i)
  {
    hide Shifted;
    assert (i + 24) / 8 == i / 8 + 3 && (i + 24) % 8 == i % 8;
  }

  // ---------------------------------------------------------------- encoded texts

  /** The number of sextets that hold a bit of n bytes. */
  function Letters(n: nat): nat {
    (8 * n + 5) / 6
  }

  /** Every character of an encoded text: letter j stands for the six bits from bit 6 j on, behind
      the end filled with zeros, and whatever is left of the last group of four is padding. */
  lemma {:induction false} EncodedFormat(s: Bytes, j: nat)
    requires j < |Encoded(s)|
    ensures SixFrom(s, 6 * j) < |ALPHABET| == 64
    ensures Encoded(s)[j] == if j < Letters(|s|) then ALPHABET[SixFrom(s, 6 * j)] else '='
    decreases |s|
  {
    hide ALPHABET, Letter, SixFrom;
    if |s| <= 2 || j < 4 {
      HeadFormat(s, j);
    } else {
      EncodedFormat(s[3..], j - 4);
      assert 6 * j == 6 * (j - 4) + 24;
      SixLater(s, 6 * (j - 4));
      assert Letters(|s|) == Letters(|s| - 3) + 4;
    }
  }

  lemma HeadFormat(s: Bytes, j: nat)
    requires j < |Encoded(s)| && j < 4
    ensures SixFrom(s, 6 * j) < |ALPHABET| == 64
    ensures Encoded(s)[j] == if j < Letters(|s|) then ALPHABET[SixFrom(s, 6 * j)] else '='
  {
    hide ALPHABET, Letter, SixFrom, Encoded;
    var x: byte, y: byte, z: byte := s[0], if |s| > 1 then s[1] else 0, if |s| > 2 then s[2] else 0;
    FirstSix(s, x, y, z);
    EncodedHead(s, j, x, y, z);
    LetterIs(x / 4);
    LetterIs(x % 4 * 16 + y / 16);
    LetterIs(y % 16 * 4 + z / 64);
    LetterIs(z % 64);
  }

  lemma EncodedHead(s: Bytes, j: nat, x: byte, y: byte, z: byte)
    requires s != [] && j < 4 && x == s[0]
    requires y == (if |s| > 1 then s[1] else 0) && z == if |s| > 2 then s[2] else 0
    ensures |Encoded(s)| >= 4 && Encoded(s)[j] == if j < Letters(|s|) then Quad(x, y, z)[j] else '='
  {
    hide Letter, Quad;
  }

  /** The text is as long as whole groups of four need, and ends in padding for what is missing from
      the last three bytes; no padding stands anywhere else. */
  lemma PaddingFormat(s: Bytes)
    ensures var n, pad := |Encoded(s)|, (3 - |s| % 3) % 3;
            && n == (|s| + 2) / 3 * 4 && Letters(|s|) == n - pad
            && forall j | 0 <= j < n :: Encoded(s)[j] == '=' <==> n - pad <= j
  {
    hide ALPHABET, Encoded, SixFrom;
    var n, pad := |Encoded(s)|, (3 - |s| % 3) % 3;
    assert Letters(|s|) == n - pad;
    forall j | 0 <= j < n ensures Encoded(s)[j] == '=' <==> n - pad <= j {
      EncodedFormat(s, j);
      NoPadding(SixFrom(s, 6 * j));
    }
  }

  // ---------------------------------------------------------------- decoded bytes

  /** The value of each letter is its place in the alphabet. */
  ghost predicate Places(t: string, v: seq<nat>) {
    |v| <= |t| && forall i | 0 <= i < |v| :: v[i] < |ALPHABET| && t[i] == ALPHABET[v[i]]
  }

  lemma SixParts(x: nat)
    requires x < 64
    ensures x == 32 * OfSix(x, 0) + 16 * OfSix(x, 1) + 8 * OfSix(x, 2) + 4 * OfSix(x, 3) + 2 * OfSix(x, 4) + OfSix(x, 5)
    ensures x / 16 == 2 * OfSix(x, 0) + OfSix(x, 1)
    ensures x % 16 == 8 * OfSix(x, 2) + 4 * OfSix(x, 3) + 2 * OfSix(x, 4) + OfSix(x, 5)
    ensures x / 4 == 8 * OfSix(x, 0) + 4 * OfSix(x, 1) + 2 * OfSix(x, 2) + OfSix(x, 3)
    ensures x % 4 == 2 * OfSix(x, 4) + OfSix(x, 5)
  {
    hide Shifted;
    Shifts(x);
    Halves(x);
  }

  lemma SextetBitOf(v: seq<nat>, k: nat, i: nat)
    requires k < |v| && i < 6
    ensures SextetBit(v, 6 * k + i) == OfSix(v[k], i)
  {
    hide Shifted;
    assert (6 * k + i) / 6 == k && (6 * k + i) % 6 == i;
  }

  /** The bits of sextet k, as the parts of it that go into different bytes. */
  lemma SextetParts(v: seq<nat>, k: nat)
    requires k < |v| && v[k] < 64
    ensures v[k] == 32 * SextetBit(v, 6 * k + 0) + 16 * SextetBit(v, 6 * k + 1) + 8 * SextetBit(v, 6 * k
            + 2) + 4 * SextetBit(v, 6 * k + 3) + 2 * SextetBit(v, 6 * k + 4) + SextetBit(v, 6 * k + 5)
    ensures v[k] / 16 == 2 * SextetBit(v, 6 * k + 0) + SextetBit(v, 6 * k + 1)
    ensures v[k] % 16 == 8 * SextetBit(v, 6 * k + 2) + 4 * SextetBit(v, 6 * k + 3) + 2 * SextetBit(v, 6 * k
            + 4) + SextetBit(v, 6 * k + 5)
    ensures v[k] / 4 == 8 * SextetBit(v, 6 * k + 0) + 4 * SextetBit(v, 6 * k + 1) + 2 * SextetBit(v, 6 * k
            + 2) + SextetBit(v, 6 * k + 3)
    ensures v[k] % 4 == 2 * SextetBit(v, 6 * k + 4) + SextetBit(v, 6 * k + 5)
  {
    hide OfSix, SextetBit;
    SixParts(v[k]);
    SextetBitOf(v, k, 0);
    SextetBitOf(v, k, 1);
    SextetBitOf(v, k, 2);
    SextetBitOf(v, k, 3);
    SextetBitOf(v, k, 4);
    SextetBitOf(v, k, 5);
  }

  lemma FirstEight(v: seq<nat>)
    requires |v| >= 2 && Sextets(v)
    ensures EightFrom(v, 0) == First(v[0], v[1])
    ensures |v| >= 3 ==> EightFrom(v, 8) == Second(v[1], v[2])
    ensures |v| >= 4 ==> EightFrom(v, 16) == Third(v[2], v[3])
  {
    hide SextetBit;
    SextetParts(v, 0);
    SextetParts(v, 1);
    if |v| >= 3 { SextetParts(v, 2); }
    if |v| >= 4 { SextetParts(v, 3); }
  }

  lemma EightLater(v: seq<nat>, i: nat)
    requires |v| >= 4
    ensures EightFrom(v, i + 24) == EightFrom(v[4..], i)
  {
    hide SextetBit;
    SextetLater(v, i);
    SextetLater(v, i + 1);
    SextetLater(v, i + 2);
    SextetLater(v, i + 3);
    SextetLater(v, i + 4);
    SextetLater(v, i + 5);
    SextetLater(v, i + 6);
    SextetLater(v, i + 7);
  }

  lemma SextetLater(v: seq<nat>, i: nat)
    requires |v| >= 4
    ensures SextetBit(v, i + 24) == SextetBit(v[4..], i)
  {
    hide Shifted;
    assert (i + 24) / 6 == i / 6 + 4 && (i + 24) % 6 == i % 6;
  }

  lemma {:induction false} UnpackedBits(v: seq<nat>, k: nat)
    requires Sextets(v) && k < |Unpacked(v)|
    ensures Unpacked(v)[k] == EightFrom(v, 8 * k)
    decreases |v|
  {
    hide EightFrom, First, Second, Third;
    FirstEight(v);
    if k >= 3 {
      UnpackedBits(v[4..], k - 3);
      assert 8 * k == 8 * (k - 3) + 24;
      EightLater(v, 8 * (k - 3));
    }
  }

  /** What is decoded of any text at all: its letters up to the first character that is none, read
      as bits, eight to a byte; bits that do not fill a byte are left. */
  lemma DecodedFormat(t: string) returns (v: seq<nat>)
    ensures Places(t, v) && (|v| < |t| ==> t[|v|] !in ALPHABET)
    ensures |Decoded(t)| == 6 * |v| / 8 && forall k | 0 <= k < |Decoded(t)| :: Decoded(t)[k] == EightFrom(v, 8 * k)
  {
    hide ALPHABET, Index, EightFrom, Unpacked;
    var n := Run(t);
    v := Values(t[..n]);
    forall i | 0 <= i < n ensures v[i] < |ALPHABET| && t[i] == ALPHABET[v[i]] { IndexIs(t[i]); }
    if n < |t| { IndexIs(t[n]); }
    UnpackedLength(v);
    forall k | 0 <= k < |Decoded(t)| ensures Decoded(t)[k] == EightFrom(v, 8 * k) { UnpackedBits(v, k); }
  }
}

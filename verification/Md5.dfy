/**
  The MD5 message digest of common/md5.cpp, fed piece by piece, against RFC 1321, which digests a
  whole message at once.
 */
module Md5 {
  import Rfc = Rfc1321
  import opened Md5Core
  import opened BlockDigest

  type Byte = bv8

  /** byteReverse: words are stored with the low-order byte first. */
  function WordOf(a: Byte, b: Byte, c: Byte, d: Byte): bv32 {
    ((((d as bv32) << 8) | (c as bv32)) << 16) | (((b as bv32) << 8) | (a as bv32))
  }

  lemma {:induction false} SameWord(a: Byte, b: Byte, c: Byte, d: Byte)
    ensures WordOf(a, b, c, d) == Rfc.FromBytes(a, b, c, d)
  {
  }

  function BytesOf(w: bv32): (r: seq<Byte>)
    ensures |r| == 4
  {
    [(w & 0xff) as bv8, ((w >> 8) & 0xff) as bv8, ((w >> 16) & 0xff) as bv8, ((w >> 24) & 0xff) as bv8]
  }

  lemma {:induction false} SameBytes(w: bv32)
    ensures BytesOf(w) == Rfc.ToBytes(w)
  {
  }

  /** Storing a word and reading it back gives the word. */
  lemma {:induction false} WordRoundTrip(w: bv32)
    ensures var r := BytesOf(w); WordOf(r[0], r[1], r[2], r[3]) == w
  {
  }

  /** A number as a word, the low-order 32 bits of it. */
  function ToWord(n: nat): bv32 { (n % RANGE32) as bv32 }

  function WordsOf(bytes: seq<Byte>, n: nat): (r: seq<bv32>)
    requires 4 * n <= |bytes|
    ensures |r| == n
  {
    if n == 0 then []
    else WordsOf(bytes, n - 1) + [WordOf(bytes[4 * n - 4], bytes[4 * n - 3], bytes[4 * n - 2], bytes[4 * n - 1])]
  }

  lemma {:induction false} SameWordsOf(bytes: seq<Byte>, n: nat)
    requires 4 * n <= |bytes|
    ensures WordsOf(bytes, n) == Rfc.Words(bytes, n)
  {
    if n > 0 {
      SameWordsOf(bytes, n - 1);
      SameWord(bytes[4 * n - 4], bytes[4 * n - 3], bytes[4 * n - 2], bytes[4 * n - 1]);
    }
  }

  function Compress(s: State, block: seq<Byte>): State {
    if |block| == BLOCK then Transform(s, WordsOf(block, 16)) else s
  }

  lemma {:induction false} CompressFollowsRfc(s: State, block: seq<Byte>)
    ensures Compress(s, block) == Rfc.Compress(s, block)
  {
    if |block| == BLOCK {
      SameWordsOf(block, 16);
      TransformFollowsRfc(s, WordsOf(block, 16));
    }
  }

  function LengthBytes(low: nat, high: nat): (r: seq<Byte>)
    ensures |r| == 8
  {
    BytesOf(ToWord(low)) + BytesOf(ToWord(high))
  }

  /** Section 3.2 of RFC 1321: two words, the low-order one first, each with its low-order byte first. */
  function RfcLength(low: nat, high: nat): (r: seq<Byte>)
    ensures |r| == 8
  {
    Rfc.ToBytes(ToWord(low)) + Rfc.ToBytes(ToWord(high))
  }

  const MD5_SCHEME: Scheme<State, Byte> := Scheme(Compress, INIT, 0x80, 0, LengthBytes)

  /** Section 3.1 of RFC 1321: the padding is a single 1 bit, and 0 bits. */
  const RFC_SCHEME: Scheme<State, Byte> := Scheme(Rfc.Compress, Rfc.Start(), 128, 0, RfcLength)

  /** The digest of section 3 of RFC 1321. */
  ghost function Digest(message: seq<Byte>): (r: seq<Byte>)
    ensures |r| == 16
  {
    assert ValidScheme(RFC_SCHEME);
    Rfc.Output(OneShot(RFC_SCHEME, message))
  }

  function StateBytes(s: State): (r: seq<Byte>)
    ensures |r| == 16
  {
    BytesOf(s.a) + BytesOf(s.b) + BytesOf(s.c) + BytesOf(s.d)
  }

  lemma {:induction false} SameOutput(s: State)
    ensures StateBytes(s) == Rfc.Output(s)
  {
    SameBytes(s.a);
    SameBytes(s.b);
    SameBytes(s.c);
    SameBytes(s.d);
  }

  lemma {:induction false} SameLength(low: nat, high: nat)
    ensures LengthBytes(low, high) == RfcLength(low, high)
  {
    SameBytes(ToWord(low));
    SameBytes(ToWord(high));
  }

  /** The code's way of working in a block gives every message the RFC's digest. */
  lemma {:induction false} FollowsRfc(message: seq<Byte>)
    ensures ValidScheme(MD5_SCHEME) && ValidScheme(RFC_SCHEME)
    ensures OneShot(MD5_SCHEME, message) == OneShot(RFC_SCHEME, message)
    ensures StateBytes(OneShot(MD5_SCHEME, message)) == Digest(message)
  {
    StartsAlike();
    forall low, high ensures MD5_SCHEME.length(low, high) == RFC_SCHEME.length(low, high) {
      SameLength(low, high);
    }
    forall s, block | |block| == BLOCK ensures MD5_SCHEME.step(s, block) == RFC_SCHEME.step(s, block) {
      CompressFollowsRfc(s, block);
    }
    SameDigest(MD5_SCHEME, RFC_SCHEME, message);
    SameOutput(OneShot(MD5_SCHEME, message));
  }

  /* ----- hexadecimal ----- */

  function Digit(b: Byte): char {
    match b
    case 0 => '0'
    case 1 => '1'
    case 2 => '2'
    case 3 => '3'
    case 4 => '4'
    case 5 => '5'
    case 6 => '6'
    case 7 => '7'
    case 8 => '8'
    case 9 => '9'
    case 10 => 'a'
    case 11 => 'b'
    case 12 => 'c'
    case 13 => 'd'
    case 14 => 'e'
    case _ => 'f'
  }

  function Hex(bytes: seq<Byte>): (r: string)
    ensures |r| == 2 * |bytes|
  {
    if bytes == [] then []
    else
      var last := bytes[|bytes| - 1];
      Hex(bytes[..|bytes| - 1]) + [Digit((last >> 4) & 0xf), Digit(last & 0xf)]
  }

  /** What a hexadecimal digit stands for. */
  function DigitValue(c: char): int {
    if '0' <= c <= '9' then c as int - '0' as int else c as int - 'a' as int + 10
  }

  lemma {:induction false} DigitStandsFor(b: Byte)
    requires b < 16
    ensures '0' <= Digit(b) <= '9' || 'a' <= Digit(b) <= 'f'
    ensures DigitValue(Digit(b)) == b as int
  {
  }

  /** The text has two digits for each byte: first the one for its high half, then the one for its low half. */
  lemma {:induction false} HexSpells(bytes: seq<Byte>, i: nat)
    requires i < |bytes|
    ensures var text, b := Hex(bytes), bytes[i];
            && DigitValue(text[2 * i]) == (b / 16) as int
            && DigitValue(text[2 * i + 1]) == (b % 16) as int
  {
    if i < |bytes| - 1 {
      HexSpells(bytes[..|bytes| - 1], i);
    } else {
      DigitStandsFor(bytes[i] / 16);
      DigitStandsFor(bytes[i] % 16);
    }
  }

  function Render(s: State): string { Hex(StateBytes(s)) }

  /** The MD5 digest of a message in hexadecimal, fed in any pieces. */
  method DigestOf(pieces: seq<seq<Byte>>) returns (r: string)
    requires pieces != [] && forall i :: 0 <= i < |pieces| ==> |pieces[i]| < RANGE32
    ensures r == Hex(Digest(Concat(pieces)))
  {
    FollowsRfc(Concat(pieces));
    r := DigestPieces(MD5_SCHEME, Render, pieces);
  }
}

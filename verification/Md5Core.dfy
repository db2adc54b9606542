/**
  The step functions of MD5 as common/md5.cpp computes them, against those of RFC 1321.
 */
module Md5Core {
  import Rfc = Rfc1321

  type State = Rfc.State

  const INIT := Rfc.State(0x67452301, 0xefcdab89, 0x98badcfe, 0x10325476)

  lemma {:induction false} StartsAlike()
    ensures INIT == Rfc.Start()
  {
  }

  lemma {:induction false} Choice(x: bv32, y: bv32, z: bv32)
    ensures z ^ (x & (y ^ z)) == (x & y) | (!x & z)
  {
  }

  lemma {:induction false} ChoiceSwapped(x: bv32, y: bv32, z: bv32)
    ensures y ^ (z & (x ^ y)) == (x & z) | (y & !z)
  {
  }

  function F1(x: bv32, y: bv32, z: bv32): (r: bv32)
    ensures r == Rfc.F(x, y, z)
  {
    Choice(x, y, z);
    z ^ (x & (y ^ z))
  }

  function F2(x: bv32, y: bv32, z: bv32): (r: bv32)
    ensures r == Rfc.G(x, y, z)
  {
    ChoiceSwapped(x, y, z);
    F1(z, x, y)
  }

  function F3(x: bv32, y: bv32, z: bv32): (r: bv32)
    ensures r == Rfc.H(x, y, z)
  {
    x ^ y ^ z
  }

  function F4(x: bv32, y: bv32, z: bv32): (r: bv32)
    ensures r == Rfc.I(x, y, z)
  {
    y ^ (x | !z)
  }

  /** The auxiliary functions of round `i / 16`. */
  function Auxiliary(i: nat, x: bv32, y: bv32, z: bv32): (r: bv32)
    ensures r == Rfc.Auxiliary(i, x, y, z)
  {
    if i < 16 then F1(x, y, z) else if i < 32 then F2(x, y, z) else if i < 48 then F3(x, y, z) else F4(x, y, z)
  }

  /** The message word of step `i`. */
  function WordIndex(i: nat): nat {
    match i
    case 0 => 0
    case 1 => 1
    case 2 => 2
    case 3 => 3
    case 4 => 4
    case 5 => 5
    case 6 => 6
    case 7 => 7
    case 8 => 8
    case 9 => 9
    case 10 => 10
    case 11 => 11
    case 12 => 12
    case 13 => 13
    case 14 => 14
    case 15 => 15
    case 16 => 1
    case 17 => 6
    case 18 => 11
    case 19 => 0
    case 20 => 5
    case 21 => 10
    case 22 => 15
    case 23 => 4
    case 24 => 9
    case 25 => 14
    case 26 => 3
    case 27 => 8
    case 28 => 13
    case 29 => 2
    case 30 => 7
    case 31 => 12
    case 32 => 5
    case 33 => 8
    case 34 => 11
    case 35 => 14
    case 36 => 1
    case 37 => 4
    case 38 => 7
    case 39 => 10
    case 40 => 13
    case 41 => 0
    case 42 => 3
    case 43 => 6
    case 44 => 9
    case 45 => 12
    case 46 => 15
    case 47 => 2
    case 48 => 0
    case 49 => 7
    case 50 => 14
    case 51 => 5
    case 52 => 12
    case 53 => 3
    case 54 => 10
    case 55 => 1
    case 56 => 8
    case 57 => 15
    case 58 => 6
    case 59 => 13
    case 60 => 4
    case 61 => 11
    case 62 => 2
    case _ => 9
  }

  /** The additive constants. */
  function T(i: nat): bv32 {
    match i
    case 0 => 0xd76aa478
    case 1 => 0xe8c7b756
    case 2 => 0x242070db
    case 3 => 0xc1bdceee
    case 4 => 0xf57c0faf
    case 5 => 0x4787c62a
    case 6 => 0xa8304613
    case 7 => 0xfd469501
    case 8 => 0x698098d8
    case 9 => 0x8b44f7af
    case 10 => 0xffff5bb1
    case 11 => 0x895cd7be
    case 12 => 0x6b901122
    case 13 => 0xfd987193
    case 14 => 0xa679438e
    case 15 => 0x49b40821
    case 16 => 0xf61e2562
    case 17 => 0xc040b340
    case 18 => 0x265e5a51
    case 19 => 0xe9b6c7aa
    case 20 => 0xd62f105d
    case 21 => 0x02441453
    case 22 => 0xd8a1e681
    case 23 => 0xe7d3fbc8
    case 24 => 0x21e1cde6
    case 25 => 0xc33707d6
    case 26 => 0xf4d50d87
    case 27 => 0x455a14ed
    case 28 => 0xa9e3e905
    case 29 => 0xfcefa3f8
    case 30 => 0x676f02d9
    case 31 => 0x8d2a4c8a
    case 32 => 0xfffa3942
    case 33 => 0x8771f681
    case 34 => 0x6d9d6122
    case 35 => 0xfde5380c
    case 36 => 0xa4beea44
    case 37 => 0x4bdecfa9
    case 38 => 0xf6bb4b60
    case 39 => 0xbebfbc70
    case 40 => 0x289b7ec6
    case 41 => 0xeaa127fa
    case 42 => 0xd4ef3085
    case 43 => 0x04881d05
    case 44 => 0xd9d4d039
    case 45 => 0xe6db99e5
    case 46 => 0x1fa27cf8
    case 47 => 0xc4ac5665
    case 48 => 0xf4292244
    case 49 => 0x432aff97
    case 50 => 0xab9423a7
    case 51 => 0xfc93a039
    case 52 => 0x655b59c3
    case 53 => 0x8f0ccc92
    case 54 => 0xffeff47d
    case 55 => 0x85845dd1
    case 56 => 0x6fa87e4f
    case 57 => 0xfe2ce6e0
    case 58 => 0xa3014314
    case 59 => 0x4e0811a1
    case 60 => 0xf7537e82
    case 61 => 0xbd3af235
    case 62 => 0x2ad7d2bb
    case _ => 0xeb86d391
  }

  function Rotate(w: bv32, s: bv8): bv32
    requires s <= 32
  {
    (w << s) | (w >> (32 - s))
  }

  /** The rotation of step `i`. */
  function Rotated(w: bv32, i: nat): (r: bv32)
    ensures r == Rfc.Rotated(w, i)
  {
    if i < 16 then
      if i % 4 == 0 then Rotate(w, 7) else if i % 4 == 1 then Rotate(w, 12) else if i % 4 == 2 then Rotate(w, 17) else Rotate(w, 22)
    else if i < 32 then
      if i % 4 == 0 then Rotate(w, 5) else if i % 4 == 1 then Rotate(w, 9) else if i % 4 == 2 then Rotate(w, 14) else Rotate(w, 20)
    else if i < 48 then
      if i % 4 == 0 then Rotate(w, 4) else if i % 4 == 1 then Rotate(w, 11) else if i % 4 == 2 then Rotate(w, 16) else Rotate(w, 23)
    else
      if i % 4 == 0 then Rotate(w, 6) else if i % 4 == 1 then Rotate(w, 10) else if i % 4 == 2 then Rotate(w, 15) else Rotate(w, 21)
  }

  /** The code takes the words in the order of the RFC ... */
  lemma {:induction false} SameWords(i: nat)
    requires i < 64
    ensures WordIndex(i) == Rfc.Word(i)
  {
    if i >= 16 { LaterRounds(i); }
  }

  lemma {:induction false} LaterRounds(i: nat)
    requires 16 <= i < 64
    ensures i < 32 ==> WordIndex(i) == (5 * i + 1) % 16
    ensures 32 <= i < 48 ==> WordIndex(i) == (3 * i + 5) % 16
    ensures 48 <= i ==> WordIndex(i) == 7 * i % 16
  {
  }

  /** ... and adds the same constants. */
  lemma {:induction false} SameConstants(i: nat)
    ensures T(i) == Rfc.T(i)
  {
  }

  /** One step: the sum that is rotated, ... */
  function Operand(s: State, f: bv32, word: bv32, t: bv32): bv32 { s.a + (f + (word + t)) }

  /** ... and the new state; the roles of the four words move on by one with each step. */
  function Step(s: State, r: bv32): State { Rfc.State(s.d, r + s.b, s.b, s.c) }

  lemma {:induction false} SameOperand(s: State, f: bv32, word: bv32, t: bv32)
    ensures Operand(s, f, word, t) == Rfc.Operand(s, f, word, t)
  {
  }

  lemma {:induction false} SameStep(s: State, r: bv32)
    ensures Step(s, r) == Rfc.Step(s, r)
  {
  }

  function StepAt(s: State, word: bv32, t: bv32, i: nat): State {
    Step(s, Rotated(Operand(s, Auxiliary(i, s.b, s.c, s.d), word, t), i))
  }

  function Steps(s: State, words: seq<bv32>, n: nat): State
    requires |words| == 16 && n <= 64
  {
    if n == 0 then s else
      SameWords(n - 1);
      StepAt(Steps(s, words, n - 1), words[WordIndex(n - 1)], T(n - 1), n - 1)
  }

  function Added(s: State, t: State): State {
    Rfc.State(s.a + t.a, s.b + t.b, s.c + t.c, s.d + t.d)
  }

  lemma {:induction false} AddsAlike(s: State, t: State)
    ensures Added(s, t) == Rfc.Added(s, t)
  {
  }

  /** Four rounds, a step per word in each. */
  function Transform(s: State, words: seq<bv32>): State
    requires |words| == 16
  {
    Added(s, Steps(s, words, 4 * |words|))
  }

  /** The code's steps are those of the RFC. */
  lemma {:induction false} StepsFollowRfc(s: State, words: seq<bv32>, n: nat)
    requires |words| == 16 && n <= 64
    ensures Steps(s, words, n) == Rfc.Steps(s, words, n)
  {
    if n > 0 {
      StepsFollowRfc(s, words, n - 1);
      SameWords(n - 1);
      SameConstants(n - 1);
      var r := Steps(s, words, n - 1);
      var f := Auxiliary(n - 1, r.b, r.c, r.d);
      SameOperand(r, f, words[WordIndex(n - 1)], T(n - 1));
      SameStep(r, Rotated(Operand(r, f, words[WordIndex(n - 1)], T(n - 1)), n - 1));
    }
  }

  /** So the code works a block into the state as the RFC does. */
  lemma {:induction false} TransformFollowsRfc(s: State, words: seq<bv32>)
    requires |words| == 16
    ensures Transform(s, words) == Rfc.Transform(s, words)
  {
    StepsFollowRfc(s, words, 4 * |words|);
    AddsAlike(s, Steps(s, words, 4 * |words|));
  }
}

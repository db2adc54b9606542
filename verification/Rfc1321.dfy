/**
  The MD5 message digest as RFC 1321 defines it: sections 3.3 to 3.5, with tables and constants
  of their own.
 */
module Rfc1321 {
  /** The four words A, B, C and D. */
  datatype State = State(a: bv32, b: bv32, c: bv32, d: bv32)

  /** A word given by its bytes, the low-order byte first. */
  function FromBytes(a: bv8, b: bv8, c: bv8, d: bv8): bv32 {
    (a as bv32) + 0x100 * (b as bv32) + 0x1_0000 * (c as bv32) + 0x100_0000 * (d as bv32)
  }

  /** The bytes of a word, the low-order byte first. */
  function ToBytes(w: bv32): (r: seq<bv8>)
    ensures |r| == 4
  {
    [(w % 0x100) as bv8, (w / 0x100 % 0x100) as bv8, (w / 0x1_0000 % 0x100) as bv8, (w / 0x100_0000 % 0x100) as bv8]
  }

  /** Section 3.3. */
  function Start(): State {
    State(FromBytes(0x01, 0x23, 0x45, 0x67), FromBytes(0x89, 0xab, 0xcd, 0xef),
          FromBytes(0xfe, 0xdc, 0xba, 0x98), FromBytes(0x76, 0x54, 0x32, 0x10))
  }

  /* section 3.4 */

  function F(x: bv32, y: bv32, z: bv32): bv32 { (x & y) | (!x & z) }

  function G(x: bv32, y: bv32, z: bv32): bv32 { (x & z) | (y & !z) }

  function H(x: bv32, y: bv32, z: bv32): bv32 { x ^ y ^ z }

  function I(x: bv32, y: bv32, z: bv32): bv32 { y ^ (x | !z) }

  function Auxiliary(i: nat, x: bv32, y: bv32, z: bv32): bv32 {
    if i < 16 then F(x, y, z) else if i < 32 then G(x, y, z) else if i < 48 then H(x, y, z) else I(x, y, z)
  }

  /** The word X[k] that step `i` adds: the rounds go through the words in steps of 1, 5, 3 and 7. */
  function Word(i: nat): (k: nat)
    requires i < 64
    ensures k < 16
  {
    if i < 16 then i else if i < 32 then (5 * i + 1) % 16 else if i < 48 then (3 * i + 5) % 16 else 7 * i % 16
  }

  /** The rotation of step `i`: circular shifts to the left. */
  function Rotated(w: bv32, i: nat): bv32 {
    if i < 16 then
      if i % 4 == 0 then w.RotateLeft(7) else if i % 4 == 1 then w.RotateLeft(12)
      else if i % 4 == 2 then w.RotateLeft(17) else w.RotateLeft(22)
    else if i < 32 then
      if i % 4 == 0 then w.RotateLeft(5) else if i % 4 == 1 then w.RotateLeft(9)
      else if i % 4 == 2 then w.RotateLeft(14) else w.RotateLeft(20)
    else if i < 48 then
      if i % 4 == 0 then w.RotateLeft(4) else if i % 4 == 1 then w.RotateLeft(11)
      else if i % 4 == 2 then w.RotateLeft(16) else w.RotateLeft(23)
    else
      if i % 4 == 0 then w.RotateLeft(6) else if i % 4 == 1 then w.RotateLeft(10)
      else if i % 4 == 2 then w.RotateLeft(15) else w.RotateLeft(21)
  }

  /** T[i + 1]: the integer part of 4294967296 times the absolute value of the sine of i + 1, in radians. */
  function T(i: nat): bv32 {
    match i
    case 0 => 3614090360
    case 1 => 3905402710
    case 2 => 606105819
    case 3 => 3250441966
    case 4 => 4118548399
    case 5 => 1200080426
    case 6 => 2821735955
    case 7 => 4249261313
    case 8 => 1770035416
    case 9 => 2336552879
    case 10 => 4294925233
    case 11 => 2304563134
    case 12 => 1804603682
    case 13 => 4254626195
    case 14 => 2792965006
    case 15 => 1236535329
    case 16 => 4129170786
    case 17 => 3225465664
    case 18 => 643717713
    case 19 => 3921069994
    case 20 => 3593408605
    case 21 => 38016083
    case 22 => 3634488961
    case 23 => 3889429448
    case 24 => 568446438
    case 25 => 3275163606
    case 26 => 4107603335
    case 27 => 1163531501
    case 28 => 2850285829
    case 29 => 4243563512
    case 30 => 1735328473
    case 31 => 2368359562
    case 32 => 4294588738
    case 33 => 2272392833
    case 34 => 1839030562
    case 35 => 4259657740
    case 36 => 2763975236
    case 37 => 1272893353
    case 38 => 4139469664
    case 39 => 3200236656
    case 40 => 681279174
    case 41 => 3936430074
    case 42 => 3572445317
    case 43 => 76029189
    case 44 => 3654602809
    case 45 => 3873151461
    case 46 => 530742520
    case 47 => 3299628645
    case 48 => 4096336452
    case 49 => 1126891415
    case 50 => 2878612391
    case 51 => 4237533241
    case 52 => 1700485571
    case 53 => 2399980690
    case 54 => 4293915773
    case 55 => 2240044497
    case 56 => 1873313359
    case 57 => 4264355552
    case 58 => 2734768916
    case 59 => 1309151649
    case 60 => 4149444226
    case 61 => 3174756917
    case 62 => 718787259
    case _ => 3951481745
  }

  /** [abcd k s i], with the roles of the four words moved on by one: the sum that is rotated, ... */
  function Operand(s: State, f: bv32, word: bv32, t: bv32): bv32 { s.a + f + word + t }

  /** ... and what the rotated sum does to the state. */
  function Step(s: State, r: bv32): State { State(s.d, s.b + r, s.b, s.c) }

  function Steps(s: State, words: seq<bv32>, n: nat): State
    requires |words| == 16 && n <= 64
  {
    if n == 0 then s else
      var r := Steps(s, words, n - 1);
      Step(r, Rotated(Operand(r, Auxiliary(n - 1, r.b, r.c, r.d), words[Word(n - 1)], T(n - 1)), n - 1))
  }

  function Added(s: State, t: State): State {
    State(s.a + t.a, s.b + t.b, s.c + t.c, s.d + t.d)
  }

  /** What a block of 16 words does to the state: four rounds, a step per word in each. */
  function Transform(s: State, words: seq<bv32>): State
    requires |words| == 16
  {
    Added(s, Steps(s, words, 4 * |words|))
  }

  function Words(bytes: seq<bv8>, n: nat): (r: seq<bv32>)
    requires 4 * n <= |bytes|
    ensures |r| == n
  {
    if n == 0 then []
    else Words(bytes, n - 1) + [FromBytes(bytes[4 * n - 4], bytes[4 * n - 3], bytes[4 * n - 2], bytes[4 * n - 1])]
  }

  /** What a block of 64 bytes does to the state. */
  function Compress(s: State, block: seq<bv8>): State {
    if |block| == 64 then Transform(s, Words(block, 16)) else s
  }

  /** Section 3.5: the digest begins with the low-order byte of A and ends with the high-order byte of D. */
  function Output(s: State): (r: seq<bv8>)
    ensures |r| == 16
  {
    ToBytes(s.a) + ToBytes(s.b) + ToBytes(s.c) + ToBytes(s.d)
  }
}

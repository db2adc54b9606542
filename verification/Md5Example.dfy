/**
  A digest of the test suite in appendix A.5 of RFC 1321, followed through all 64 steps: the
  letters from a to z make one block.
 */
module Md5Example {
  import Rfc = Rfc1321
  import opened Md5Core
  import opened BlockDigest
  import opened Md5

  const LETTERS: seq<Byte> := [
    97, 98, 99, 100, 101, 102, 103, 104, 105, 106, 107, 108, 109,
    110, 111, 112, 113, 114, 115, 116, 117, 118, 119, 120, 121, 122]

  /** The words of the block: the letters, the padding and their length in bits. */
  function BlockWord(k: nat): bv32 {
    match k
    case 0 => 0x64636261
    case 1 => 0x68676665
    case 2 => 0x6c6b6a69
    case 3 => 0x706f6e6d
    case 4 => 0x74737271
    case 5 => 0x78777675
    case 6 => 0x00807a79
    case 14 => 0x000000d0
    case _ => 0
  }

  ghost predicate Block(words: seq<bv32>) {
    |words| == 16 && forall k :: 0 <= k < 16 ==> words[k] == BlockWord(k)
  }

  /** After `n` steps the state is a, b, c, d. */
  ghost predicate At(words: seq<bv32>, n: nat, a: bv32, b: bv32, c: bv32, d: bv32) {
    |words| == 16 && n <= 64 && Steps(INIT, words, n) == Rfc.State(a, b, c, d)
  }

  /** Step `i`, which adds `word` and `t`, computes `r`. */
  lemma {:induction false} Advance(words: seq<bv32>, n: nat, a: bv32, b: bv32, c: bv32, d: bv32,
                                   word: bv32, t: bv32, i: nat, r: bv32)
    requires At(words, n, a, b, c, d) && n < 64 && n == i
    requires words[WordIndex(n)] == word && T(n) == t
    requires StepAt(Rfc.State(a, b, c, d), word, t, i) == Rfc.State(d, r, b, c)
    ensures At(words, n + 1, d, r, b, c)
  {
  }

  lemma {:induction false} From0(words: seq<bv32>, n: nat)
    requires n == 0 && At(words, n, 0x67452301, 0xefcdab89, 0x98badcfe, 0x10325476) && Block(words)
    ensures At(words, n + 4, 0xd6d117a6, 0x4503b812, 0x227d8cf1, 0xaab1aaaa)
  {
    Advance(words, n, 0x67452301, 0xefcdab89, 0x98badcfe, 0x10325476, 0x64636261, 0xd76aa478, 0, 0xd6d117a6);
    Advance(words, n + 1, 0x10325476, 0xd6d117a6, 0xefcdab89, 0x98badcfe, 0x68676665, 0xe8c7b756, 1, 0xaab1aaaa);
    Advance(words, n + 2, 0x98badcfe, 0xaab1aaaa, 0xd6d117a6, 0xefcdab89, 0x6c6b6a69, 0x242070db, 2, 0x227d8cf1);
    Advance(words, n + 3, 0xefcdab89, 0x227d8cf1, 0xaab1aaaa, 0xd6d117a6, 0x706f6e6d, 0xc1bdceee, 3, 0x4503b812);
  }

  lemma {:induction false} From4(words: seq<bv32>, n: nat)
    requires n == 4 && At(words, n, 0xd6d117a6, 0x4503b812, 0x227d8cf1, 0xaab1aaaa) && Block(words)
    ensures At(words, n + 4, 0xfe15f787, 0xda9bbb0d, 0xb71122fc, 0xa811b278)
  {
    Advance(words, n, 0xd6d117a6, 0x4503b812, 0x227d8cf1, 0xaab1aaaa, 0x74737271, 0xf57c0faf, 4, 0xfe15f787);
    Advance(words, n + 1, 0xaab1aaaa, 0xfe15f787, 0x4503b812, 0x227d8cf1, 0x78777675, 0x4787c62a, 5, 0xa811b278);
    Advance(words, n + 2, 0x227d8cf1, 0xa811b278, 0xfe15f787, 0x4503b812, 0x00807a79, 0xa8304613, 6, 0xb71122fc);
    Advance(words, n + 3, 0x4503b812, 0xb71122fc, 0xa811b278, 0xfe15f787, 0x00000000, 0xfd469501, 7, 0xda9bbb0d);
  }

  lemma {:induction false} From8(words: seq<bv32>, n: nat)
    requires n == 8 && At(words, n, 0xfe15f787, 0xda9bbb0d, 0xb71122fc, 0xa811b278) && Block(words)
    ensures At(words, n + 4, 0xae752899, 0x56cfa5cb, 0x7d4bd80b, 0x2bbe757f)
  {
    Advance(words, n, 0xfe15f787, 0xda9bbb0d, 0xb71122fc, 0xa811b278, 0x00000000, 0x698098d8, 8, 0xae752899);
    Advance(words, n + 1, 0xa811b278, 0xae752899, 0xda9bbb0d, 0xb71122fc, 0x00000000, 0x8b44f7af, 9, 0x2bbe757f);
    Advance(words, n + 2, 0xb71122fc, 0x2bbe757f, 0xae752899, 0xda9bbb0d, 0x00000000, 0xffff5bb1, 10, 0x7d4bd80b);
    Advance(words, n + 3, 0xda9bbb0d, 0x7d4bd80b, 0x2bbe757f, 0xae752899, 0x00000000, 0x895cd7be, 11, 0x56cfa5cb);
  }

  lemma {:induction false} From12(words: seq<bv32>, n: nat)
    requires n == 12 && At(words, n, 0xae752899, 0x56cfa5cb, 0x7d4bd80b, 0x2bbe757f) && Block(words)
    ensures At(words, n + 4, 0x1754a316, 0x608d6b7e, 0x00df74d5, 0x85567d90)
  {
    Advance(words, n, 0xae752899, 0x56cfa5cb, 0x7d4bd80b, 0x2bbe757f, 0x00000000, 0x6b901122, 12, 0x1754a316);
    Advance(words, n + 1, 0x2bbe757f, 0x1754a316, 0x56cfa5cb, 0x7d4bd80b, 0x00000000, 0xfd987193, 13, 0x85567d90);
    Advance(words, n + 2, 0x7d4bd80b, 0x85567d90, 0x1754a316, 0x56cfa5cb, 0x000000d0, 0xa679438e, 14, 0x00df74d5);
    Advance(words, n + 3, 0x56cfa5cb, 0x00df74d5, 0x85567d90, 0x1754a316, 0x00000000, 0x49b40821, 15, 0x608d6b7e);
  }

  lemma {:induction false} From16(words: seq<bv32>, n: nat)
    requires n == 16 && At(words, n, 0x1754a316, 0x608d6b7e, 0x00df74d5, 0x85567d90) && Block(words)
    ensures At(words, n + 4, 0x2d8071cc, 0x4c2145b3, 0xedfe7e4b, 0x5dcee119)
  {
    Advance(words, n, 0x1754a316, 0x608d6b7e, 0x00df74d5, 0x85567d90, 0x68676665, 0xf61e2562, 16, 0x2d8071cc);
    Advance(words, n + 1, 0x85567d90, 0x2d8071cc, 0x608d6b7e, 0x00df74d5, 0x00807a79, 0xc040b340, 17, 0x5dcee119);
    Advance(words, n + 2, 0x00df74d5, 0x5dcee119, 0x2d8071cc, 0x608d6b7e, 0x00000000, 0x265e5a51, 18, 0xedfe7e4b);
    Advance(words, n + 3, 0x608d6b7e, 0xedfe7e4b, 0x5dcee119, 0x2d8071cc, 0x64636261, 0xe9b6c7aa, 19, 0x4c2145b3);
  }

  lemma {:induction false} From20(words: seq<bv32>, n: nat)
    requires n == 20 && At(words, n, 0x2d8071cc, 0x4c2145b3, 0xedfe7e4b, 0x5dcee119) && Block(words)
    ensures At(words, n + 4, 0x570c43e0, 0xc9f162d4, 0xc28ab49d, 0x977efd2a)
  {
    Advance(words, n, 0x2d8071cc, 0x4c2145b3, 0xedfe7e4b, 0x5dcee119, 0x78777675, 0xd62f105d, 20, 0x570c43e0);
    Advance(words, n + 1, 0x5dcee119, 0x570c43e0, 0x4c2145b3, 0xedfe7e4b, 0x00000000, 0x02441453, 21, 0x977efd2a);
    Advance(words, n + 2, 0xedfe7e4b, 0x977efd2a, 0x570c43e0, 0x4c2145b3, 0x00000000, 0xd8a1e681, 22, 0xc28ab49d);
    Advance(words, n + 3, 0x4c2145b3, 0xc28ab49d, 0x977efd2a, 0x570c43e0, 0x74737271, 0xe7d3fbc8, 23, 0xc9f162d4);
  }

  lemma {:induction false} From24(words: seq<bv32>, n: nat)
    requires n == 24 && At(words, n, 0x570c43e0, 0xc9f162d4, 0xc28ab49d, 0x977efd2a) && Block(words)
    ensures At(words, n + 4, 0x25bfae3b, 0xe6d3b398, 0xf8c8365f, 0x89980104)
  {
    Advance(words, n, 0x570c43e0, 0xc9f162d4, 0xc28ab49d, 0x977efd2a, 0x00000000, 0x21e1cde6, 24, 0x25bfae3b);
    Advance(words, n + 1, 0x977efd2a, 0x25bfae3b, 0xc9f162d4, 0xc28ab49d, 0x000000d0, 0xc33707d6, 25, 0x89980104);
    Advance(words, n + 2, 0xc28ab49d, 0x89980104, 0x25bfae3b, 0xc9f162d4, 0x706f6e6d, 0xf4d50d87, 26, 0xf8c8365f);
    Advance(words, n + 3, 0xc9f162d4, 0xf8c8365f, 0x89980104, 0x25bfae3b, 0x00000000, 0x455a14ed, 27, 0xe6d3b398);
  }

  lemma {:induction false} From28(words: seq<bv32>, n: nat)
    requires n == 28 && At(words, n, 0x25bfae3b, 0xe6d3b398, 0xf8c8365f, 0x89980104) && Block(words)
    ensures At(words, n + 4, 0xf54d8710, 0xaeb35766, 0x2e69afc7, 0x927b72e2)
  {
    Advance(words, n, 0x25bfae3b, 0xe6d3b398, 0xf8c8365f, 0x89980104, 0x00000000, 0xa9e3e905, 28, 0xf54d8710);
    Advance(words, n + 1, 0x89980104, 0xf54d8710, 0xe6d3b398, 0xf8c8365f, 0x6c6b6a69, 0xfcefa3f8, 29, 0x927b72e2);
    Advance(words, n + 2, 0xf8c8365f, 0x927b72e2, 0xf54d8710, 0xe6d3b398, 0x00000000, 0x676f02d9, 30, 0x2e69afc7);
    Advance(words, n + 3, 0xe6d3b398, 0x2e69afc7, 0x927b72e2, 0xf54d8710, 0x00000000, 0x8d2a4c8a, 31, 0xaeb35766);
  }

  lemma {:induction false} From32(words: seq<bv32>, n: nat)
    requires n == 32 && At(words, n, 0xf54d8710, 0xaeb35766, 0x2e69afc7, 0x927b72e2) && Block(words)
    ensures At(words, n + 4, 0xb4bf680e, 0x06a5e211, 0x2361ed0a, 0x4c8ffa80)
  {
    Advance(words, n, 0xf54d8710, 0xaeb35766, 0x2e69afc7, 0x927b72e2, 0x78777675, 0xfffa3942, 32, 0xb4bf680e);
    Advance(words, n + 1, 0x927b72e2, 0xb4bf680e, 0xaeb35766, 0x2e69afc7, 0x00000000, 0x8771f681, 33, 0x4c8ffa80);
    Advance(words, n + 2, 0x2e69afc7, 0x4c8ffa80, 0xb4bf680e, 0xaeb35766, 0x00000000, 0x6d9d6122, 34, 0x2361ed0a);
    Advance(words, n + 3, 0xaeb35766, 0x2361ed0a, 0x4c8ffa80, 0xb4bf680e, 0x000000d0, 0xfde5380c, 35, 0x06a5e211);
  }

  lemma {:induction false} From36(words: seq<bv32>, n: nat)
    requires n == 36 && At(words, n, 0xb4bf680e, 0x06a5e211, 0x2361ed0a, 0x4c8ffa80) && Block(words)
    ensures At(words, n + 4, 0xb9c0c733, 0x8d41bf99, 0x23a9451b, 0xf1e6dc7a)
  {
    Advance(words, n, 0xb4bf680e, 0x06a5e211, 0x2361ed0a, 0x4c8ffa80, 0x68676665, 0xa4beea44, 36, 0xb9c0c733);
    Advance(words, n + 1, 0x4c8ffa80, 0xb9c0c733, 0x06a5e211, 0x2361ed0a, 0x74737271, 0x4bdecfa9, 37, 0xf1e6dc7a);
    Advance(words, n + 2, 0x2361ed0a, 0xf1e6dc7a, 0xb9c0c733, 0x06a5e211, 0x00000000, 0xf6bb4b60, 38, 0x23a9451b);
    Advance(words, n + 3, 0x06a5e211, 0x23a9451b, 0xf1e6dc7a, 0xb9c0c733, 0x00000000, 0xbebfbc70, 39, 0x8d41bf99);
  }

  lemma {:induction false} From40(words: seq<bv32>, n: nat)
    requires n == 40 && At(words, n, 0xb9c0c733, 0x8d41bf99, 0x23a9451b, 0xf1e6dc7a) && Block(words)
    ensures At(words, n + 4, 0xa3e88ead, 0x90a35af5, 0x66f6468d, 0x02c0b11c)
  {
    Advance(words, n, 0xb9c0c733, 0x8d41bf99, 0x23a9451b, 0xf1e6dc7a, 0x00000000, 0x289b7ec6, 40, 0xa3e88ead);
    Advance(words, n + 1, 0xf1e6dc7a, 0xa3e88ead, 0x8d41bf99, 0x23a9451b, 0x64636261, 0xeaa127fa, 41, 0x02c0b11c);
    Advance(words, n + 2, 0x23a9451b, 0x02c0b11c, 0xa3e88ead, 0x8d41bf99, 0x706f6e6d, 0xd4ef3085, 42, 0x66f6468d);
    Advance(words, n + 3, 0x8d41bf99, 0x66f6468d, 0x02c0b11c, 0xa3e88ead, 0x00807a79, 0x04881d05, 43, 0x90a35af5);
  }

  lemma {:induction false} From44(words: seq<bv32>, n: nat)
    requires n == 44 && At(words, n, 0xa3e88ead, 0x90a35af5, 0x66f6468d, 0x02c0b11c) && Block(words)
    ensures At(words, n + 4, 0xb5d41f9c, 0x71d10367, 0x703d54d8, 0xa04b4904)
  {
    Advance(words, n, 0xa3e88ead, 0x90a35af5, 0x66f6468d, 0x02c0b11c, 0x00000000, 0xd9d4d039, 44, 0xb5d41f9c);
    Advance(words, n + 1, 0x02c0b11c, 0xb5d41f9c, 0x90a35af5, 0x66f6468d, 0x00000000, 0xe6db99e5, 45, 0xa04b4904);
    Advance(words, n + 2, 0x66f6468d, 0xa04b4904, 0xb5d41f9c, 0x90a35af5, 0x00000000, 0x1fa27cf8, 46, 0x703d54d8);
    Advance(words, n + 3, 0x90a35af5, 0x703d54d8, 0xa04b4904, 0xb5d41f9c, 0x6c6b6a69, 0xc4ac5665, 47, 0x71d10367);
  }

  lemma {:induction false} From48(words: seq<bv32>, n: nat)
    requires n == 48 && At(words, n, 0xb5d41f9c, 0x71d10367, 0x703d54d8, 0xa04b4904) && Block(words)
    ensures At(words, n + 4, 0xfc32dd6e, 0x33edb197, 0xb35602cb, 0x65456b34)
  {
    Advance(words, n, 0xb5d41f9c, 0x71d10367, 0x703d54d8, 0xa04b4904, 0x64636261, 0xf4292244, 48, 0xfc32dd6e);
    Advance(words, n + 1, 0xa04b4904, 0xfc32dd6e, 0x71d10367, 0x703d54d8, 0x00000000, 0x432aff97, 49, 0x65456b34);
    Advance(words, n + 2, 0x703d54d8, 0x65456b34, 0xfc32dd6e, 0x71d10367, 0x000000d0, 0xab9423a7, 50, 0xb35602cb);
    Advance(words, n + 3, 0x71d10367, 0xb35602cb, 0x65456b34, 0xfc32dd6e, 0x78777675, 0xfc93a039, 51, 0x33edb197);
  }

  lemma {:induction false} From52(words: seq<bv32>, n: nat)
    requires n == 52 && At(words, n, 0xfc32dd6e, 0x33edb197, 0xb35602cb, 0x65456b34) && Block(words)
    ensures At(words, n + 4, 0xc1e942f1, 0x83877d1b, 0x23a68048, 0xd9bb987c)
  {
    Advance(words, n, 0xfc32dd6e, 0x33edb197, 0xb35602cb, 0x65456b34, 0x00000000, 0x655b59c3, 52, 0xc1e942f1);
    Advance(words, n + 1, 0x65456b34, 0xc1e942f1, 0x33edb197, 0xb35602cb, 0x706f6e6d, 0x8f0ccc92, 53, 0xd9bb987c);
    Advance(words, n + 2, 0xb35602cb, 0xd9bb987c, 0xc1e942f1, 0x33edb197, 0x00000000, 0xffeff47d, 54, 0x23a68048);
    Advance(words, n + 3, 0x33edb197, 0x23a68048, 0xd9bb987c, 0xc1e942f1, 0x68676665, 0x85845dd1, 55, 0x83877d1b);
  }

  lemma {:induction false} From56(words: seq<bv32>, n: nat)
    requires n == 56 && At(words, n, 0xc1e942f1, 0x83877d1b, 0x23a68048, 0xd9bb987c) && Block(words)
    ensures At(words, n + 4, 0x0077c208, 0x5e6bc930, 0xa3e2247f, 0x847fc2e7)
  {
    Advance(words, n, 0xc1e942f1, 0x83877d1b, 0x23a68048, 0xd9bb987c, 0x00000000, 0x6fa87e4f, 56, 0x0077c208);
    Advance(words, n + 1, 0xd9bb987c, 0x0077c208, 0x83877d1b, 0x23a68048, 0x00000000, 0xfe2ce6e0, 57, 0x847fc2e7);
    Advance(words, n + 2, 0x23a68048, 0x847fc2e7, 0x0077c208, 0x83877d1b, 0x00807a79, 0xa3014314, 58, 0xa3e2247f);
    Advance(words, n + 3, 0x83877d1b, 0xa3e2247f, 0x847fc2e7, 0x0077c208, 0x00000000, 0x4e0811a1, 59, 0x5e6bc930);
  }

  lemma {:induction false} From60(words: seq<bv32>, n: nat)
    requires n == 60 && At(words, n, 0x0077c208, 0x5e6bc930, 0xa3e2247f, 0x847fc2e7) && Block(words)
    ensures At(words, n + 4, 0x708ed9c2, 0x1116e6d8, 0xd38f1e7f, 0x2baf1354)
  {
    Advance(words, n, 0x0077c208, 0x5e6bc930, 0xa3e2247f, 0x847fc2e7, 0x74737271, 0xf7537e82, 60, 0x708ed9c2);
    Advance(words, n + 1, 0x847fc2e7, 0x708ed9c2, 0x5e6bc930, 0xa3e2247f, 0x00000000, 0xbd3af235, 61, 0x2baf1354);
    Advance(words, n + 2, 0xa3e2247f, 0x2baf1354, 0x708ed9c2, 0x5e6bc930, 0x6c6b6a69, 0x2ad7d2bb, 62, 0xd38f1e7f);
    Advance(words, n + 3, 0x5e6bc930, 0xd38f1e7f, 0x2baf1354, 0x708ed9c2, 0x00000000, 0xeb86d391, 63, 0x1116e6d8);
  }

  lemma {:induction false} Round1(words: seq<bv32>, n: nat)
    requires n == 0 && At(words, n, 0x67452301, 0xefcdab89, 0x98badcfe, 0x10325476) && Block(words)
    ensures At(words, n + 16, 0x1754a316, 0x608d6b7e, 0x00df74d5, 0x85567d90)
  {
    From0(words, n);
    From4(words, n + 4);
    From8(words, n + 8);
    From12(words, n + 12);
  }

  lemma {:induction false} Round2(words: seq<bv32>, n: nat)
    requires n == 16 && At(words, n, 0x1754a316, 0x608d6b7e, 0x00df74d5, 0x85567d90) && Block(words)
    ensures At(words, n + 16, 0xf54d8710, 0xaeb35766, 0x2e69afc7, 0x927b72e2)
  {
    From16(words, n);
    From20(words, n + 4);
    From24(words, n + 8);
    From28(words, n + 12);
  }

  lemma {:induction false} Round3(words: seq<bv32>, n: nat)
    requires n == 32 && At(words, n, 0xf54d8710, 0xaeb35766, 0x2e69afc7, 0x927b72e2) && Block(words)
    ensures At(words, n + 16, 0xb5d41f9c, 0x71d10367, 0x703d54d8, 0xa04b4904)
  {
    From32(words, n);
    From36(words, n + 4);
    From40(words, n + 8);
    From44(words, n + 12);
  }

  lemma {:induction false} Round4(words: seq<bv32>, n: nat)
    requires n == 48 && At(words, n, 0xb5d41f9c, 0x71d10367, 0x703d54d8, 0xa04b4904) && Block(words)
    ensures At(words, n + 16, 0x708ed9c2, 0x1116e6d8, 0xd38f1e7f, 0x2baf1354)
  {
    From48(words, n);
    From52(words, n + 4);
    From56(words, n + 8);
    From60(words, n + 12);
  }

  lemma {:induction false} AllSteps(words: seq<bv32>, n: nat)
    requires n == 0 && Block(words)
    ensures Steps(INIT, words, 4 * |words|) == Rfc.State(0x708ed9c2, 0x1116e6d8, 0xd38f1e7f, 0x2baf1354)
  {
    assert At(words, n, 0x67452301, 0xefcdab89, 0x98badcfe, 0x10325476);
    Round1(words, n);
    Round2(words, n + 16);
    Round3(words, n + 32);
    Round4(words, n + 48);
  }

  lemma {:induction false} LettersTransform(words: seq<bv32>)
    requires Block(words)
    ensures Transform(INIT, words) == Rfc.State(0xd7d3fcc3, 0x00e49261, 0x6c49fb7d, 0x3be167ca)
  {
    AllSteps(words, 0);
  }

  /* ----- the block ----- */

  lemma {:induction false} WordsOfAt(bytes: seq<Byte>, n: nat, k: nat)
    requires 4 * n <= |bytes| && k < n
    ensures WordsOf(bytes, n)[k] == WordOf(bytes[4 * k], bytes[4 * k + 1], bytes[4 * k + 2], bytes[4 * k + 3])
  {
    if k < n - 1 { WordsOfAt(bytes, n - 1, k); }
  }

  lemma {:induction false} LettersLength()
    ensures LengthBytes(208, 0) == [208, 0, 0, 0, 0, 0, 0, 0]
  {
    assert ToWord(208) == 208 && ToWord(0) == 0;
  }

  /** The bytes of the padded message. */
  lemma {:induction false} LettersPadded(block: seq<Byte>)
    requires block == Padded(MD5_SCHEME, LETTERS, LengthBytes(208, 0))
    ensures |block| == BLOCK
    ensures block[..26] == LETTERS && block[26] == 0x80
    ensures forall i :: 27 <= i < BLOCK ==> block[i] == if i == 56 then 208 else 0
  {
    LettersLength();
  }

  lemma {:induction false} LettersWords(block: seq<Byte>, k: nat)
    requires |block| == BLOCK && k < 16
    requires block[..26] == LETTERS && block[26] == 0x80
    requires forall i :: 27 <= i < BLOCK ==> block[i] == if i == 56 then 208 else 0
    ensures WordsOf(block, 16)[k] == BlockWord(k)
  {
    WordsOfAt(block, 16, k);
  }

  lemma {:induction false} OneBlock<S, B>(c: Scheme<S, B>, block: seq<B>)
    requires |block| == BLOCK
    ensures StepAll(c, block) == c.step(c.start, block)
  {
    assert [] + block == block;
    StepSnoc(c, [], block);
  }

  lemma {:induction false} LettersState()
    ensures ValidScheme(MD5_SCHEME)
    ensures OneShot(MD5_SCHEME, LETTERS) == Rfc.State(0xd7d3fcc3, 0x00e49261, 0x6c49fb7d, 0x3be167ca)
  {
    var block := Padded(MD5_SCHEME, LETTERS, LengthBytes(208, 0));
    assert Length(MD5_SCHEME, |LETTERS|) == LengthBytes(208, 0);
    LettersPadded(block);
    OneBlock(MD5_SCHEME, block);
    var words := WordsOf(block, 16);
    forall k | 0 <= k < 16 ensures words[k] == BlockWord(k) { LettersWords(block, k); }
    LettersTransform(words);
  }

  /* ----- its text ----- */

  lemma {:induction false} HexConcat(a: seq<Byte>, b: seq<Byte>)
    ensures Hex(a + b) == Hex(a) + Hex(b)
  {
    if b == [] {
      assert a + b == a;
    } else {
      assert (a + b)[..|a + b| - 1] == a + b[..|b| - 1];
      HexConcat(a, b[..|b| - 1]);
    }
  }

  lemma {:induction false} HexOfByte(a: Byte)
    ensures Hex([a]) == [Digit((a >> 4) & 0xf), Digit(a & 0xf)]
  {
    assert [a][..0] == [];
  }

  lemma {:induction false} HexOfFour(a: Byte, b: Byte, c: Byte, d: Byte)
    ensures Hex([a, b, c, d]) == Hex([a]) + Hex([b]) + (Hex([c]) + Hex([d]))
  {
    HexConcat([a], [b]);
    HexConcat([c], [d]);
    HexConcat([a, b], [c, d]);
    assert [a] + [b] == [a, b] && [c] + [d] == [c, d] && [a, b] + [c, d] == [a, b, c, d];
  }

  lemma {:induction false} LettersText1()
    ensures Hex(BytesOf(0xd7d3fcc3)) == "c3fcd3d7"
  {
    HexOfByte(0xc3);
    HexOfByte(0xfc);
    HexOfByte(0xd3);
    HexOfByte(0xd7);
    HexOfFour(0xc3, 0xfc, 0xd3, 0xd7);
  }

  lemma {:induction false} LettersText2()
    ensures Hex(BytesOf(0x00e49261)) == "6192e400"
  {
    HexOfByte(0x61);
    HexOfByte(0x92);
    HexOfByte(0xe4);
    HexOfByte(0x00);
    HexOfFour(0x61, 0x92, 0xe4, 0x00);
  }

  lemma {:induction false} LettersText3()
    ensures Hex(BytesOf(0x6c49fb7d)) == "7dfb496c"
  {
    HexOfByte(0x7d);
    HexOfByte(0xfb);
    HexOfByte(0x49);
    HexOfByte(0x6c);
    HexOfFour(0x7d, 0xfb, 0x49, 0x6c);
  }

  lemma {:induction false} LettersText4()
    ensures Hex(BytesOf(0x3be167ca)) == "ca67e13b"
  {
    HexOfByte(0xca);
    HexOfByte(0x67);
    HexOfByte(0xe1);
    HexOfByte(0x3b);
    HexOfFour(0xca, 0x67, 0xe1, 0x3b);
  }

  /** The digest of the letters from a to z is the one the RFC lists. */
  lemma {:induction false} DigestOfLetters()
    ensures Hex(Digest(LETTERS)) == "c3fcd3d76192e4007dfb496cca67e13b"
  {
    FollowsRfc(LETTERS);
    LettersState();
    LettersText1();
    LettersText2();
    LettersText3();
    LettersText4();
    var a, b, c, d := BytesOf(0xd7d3fcc3), BytesOf(0x00e49261), BytesOf(0x6c49fb7d), BytesOf(0x3be167ca);
    HexConcat(a, b);
    HexConcat(a + b, c);
    HexConcat(a + b + c, d);
  }
}

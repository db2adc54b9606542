/**
  Word-level operations on bit-packed null flags (common/null_mask.cpp), against what they do
  bit by bit.
 */
module NullMasks {
  const BITS: nat := 64

  /** A 64-bit word, least significant bit first. */
  type Word = w: seq<bool> | |w| == 64 witness seq(64, _ => false)

  function Zeros(): (r: Word)
    ensures forall i :: 0 <= i < BITS ==> !r[i]
  {
    seq(64, _ => false)
  }

  function Not(a: Word): (r: Word)
    ensures forall i :: 0 <= i < BITS ==> r[i] == !a[i]
  {
    seq(64, i requires 0 <= i < 64 => !a[i])
  }

  function And(a: Word, b: Word): (r: Word)
    ensures forall i :: 0 <= i < BITS ==> r[i] == (a[i] && b[i])
  {
    seq(64, i requires 0 <= i < 64 => a[i] && b[i])
  }

  function Or(a: Word, b: Word): (r: Word)
    ensures forall i :: 0 <= i < BITS ==> r[i] == (a[i] || b[i])
  {
    seq(64, i requires 0 <= i < 64 => a[i] || b[i])
  }

  /** Shift towards the higher bits. */
  function ShiftLeft(a: Word, k: nat): (r: Word)
    requires k < BITS
    ensures forall i :: 0 <= i < BITS ==> r[i] == (i >= k && a[i - k])
  {
    seq(64, i requires 0 <= i < 64 => i >= k && a[i - k])
  }

  function ShiftRight(a: Word, k: nat): (r: Word)
    requires k < BITS
    ensures forall i :: 0 <= i < BITS ==> r[i] == (i + k < BITS && a[i + k])
  {
    seq(64, i requires 0 <= i < 64 => i + k < 64 && a[i + k])
  }

  /** The `k` lowest bits. */
  function LowerMask(k: nat): (r: Word)
    requires k <= BITS
    ensures forall i :: 0 <= i < BITS ==> r[i] == (i < k)
  {
    seq(64, i requires 0 <= i < 64 => i < k)
  }

  /** The `k` highest bits. */
  function HighMask(k: nat): (r: Word)
    requires k <= BITS
    ensures forall i :: 0 <= i < BITS ==> r[i] == (i >= BITS - k)
  {
    seq(64, i requires 0 <= i < 64 => i >= 64 - k)
  }

  function SingleOne(k: nat): (r: Word)
    requires k < BITS
    ensures forall i :: 0 <= i < BITS ==> r[i] == (i == k)
  {
    seq(64, i requires 0 <= i < 64 => i == k)
  }

  /* ----- the bits of an array of words ----- */

  function Bit(entries: seq<Word>, pos: nat): bool
    requires pos < BITS * |entries|
  {
    entries[pos / BITS][pos % BITS]
  }

  lemma {:induction false} BitAt(entries: seq<Word>, e: nat, b: nat)
    requires e < |entries| && b < BITS
    ensures BITS * e + b < BITS * |entries| && Bit(entries, BITS * e + b) == entries[e][b]
  {
  }

  /** Some bit from `offset` on, `n` of them, is set (is clear, with `invert`). */
  ghost predicate AnySet(entries: seq<Word>, offset: nat, n: nat, invert: bool)
    requires offset + n <= BITS * |entries|
  {
    exists q :: offset <= q < offset + n && Bit(entries, q) != invert
  }

  /** `after` is `before` with `n` bits from `to` on replaced by those of `src` from `from` on. */
  ghost predicate Copied(after: seq<Word>, before: seq<Word>, to: nat, src: seq<Word>, from: nat, n: nat, invert: bool)
    requires from + n <= BITS * |src|
  {
    && |after| == |before|
    && forall p :: 0 <= p < BITS * |before| ==>
         Bit(after, p) == if to <= p < to + n then Bit(src, from + (p - to)) != invert else Bit(before, p)
  }

  /** `after` is `before` with `n` bits from `offset` on set to `value`. */
  ghost predicate Filled(after: seq<Word>, before: seq<Word>, offset: nat, n: nat, value: bool) {
    && |after| == |before|
    && forall p :: 0 <= p < BITS * |before| ==>
         Bit(after, p) == if offset <= p < offset + n then value else Bit(before, p)
  }

  /** `word` is `was` with `m` bits from `to` on replaced by those of `source` from `from` on. */
  ghost predicate WordCopied(word: Word, was: Word, to: nat, source: Word, from: nat, m: nat, invert: bool)
    requires to + m <= BITS && from + m <= BITS
  {
    forall b :: 0 <= b < BITS ==> word[b] == if to <= b < to + m then source[b - to + from] != invert else was[b]
  }

  lemma {:induction false} CopiedNothing(entries: seq<Word>, to: nat, src: seq<Word>, from: nat, invert: bool)
    requires from <= BITS * |src|
    ensures Copied(entries, entries, to, src, from, 0, invert)
  {
  }

  /** Copying `m` more bits within one word. */
  lemma {:induction false} CopyStep(after: seq<Word>, was: seq<Word>, before: seq<Word>, to: nat, src: seq<Word>, from: nat,
                                    n: nat, m: nat, invert: bool, e: nat, b: nat, se: nat, sb: nat)
    requires from + n + m <= BITS * |src| && Copied(was, before, to, src, from, n, invert)
    requires e < |was| && se < |src| && b + m <= BITS && sb + m <= BITS
    requires BITS * e + b == to + n && BITS * se + sb == from + n
    requires |after| == |was| && (forall k :: 0 <= k < |was| && k != e ==> after[k] == was[k])
    requires WordCopied(after[e], was[e], b, src[se], sb, m, invert)
    ensures Copied(after, before, to, src, from, n + m, invert)
  {
    forall p | 0 <= p < BITS * |before|
      ensures Bit(after, p) == if to <= p < to + n + m then Bit(src, from + (p - to)) != invert else Bit(before, p)
    {
      if p / BITS == e && b <= p % BITS < b + m {
        BitAt(src, se, p % BITS - b + sb);
        assert from + (p - to) == BITS * se + (p % BITS - b + sb);
      } else {
        assert Bit(after, p) == Bit(was, p);
      }
    }
  }

  /** Copying a stretch in two parts is copying it. */
  lemma {:induction false} CopiedTwice(after: seq<Word>, was: seq<Word>, before: seq<Word>, to: nat, src: seq<Word>, from: nat,
                                       n: nat, m: nat, invert: bool)
    requires from + n + m <= BITS * |src|
    requires Copied(was, before, to, src, from, n, invert) && Copied(after, was, to + n, src, from + n, m, invert)
    ensures Copied(after, before, to, src, from, n + m, invert)
  {
    forall p | 0 <= p < BITS * |before|
      ensures Bit(after, p) == if to <= p < to + n + m then Bit(src, from + (p - to)) != invert else Bit(before, p)
    {
      if to + n <= p < to + n + m {
        assert from + n + (p - (to + n)) == from + (p - to);
      }
      assert Bit(after, p) == Bit(after, p) && Bit(was, p) == Bit(was, p);
    }
  }

  lemma {:induction false} AnySetTwice(entries: seq<Word>, offset: nat, n: nat, m: nat, invert: bool)
    requires offset + n + m <= BITS * |entries|
    ensures AnySet(entries, offset, n + m, invert) <==>
            AnySet(entries, offset, n, invert) || AnySet(entries, offset + n, m, invert)
  {
  }

  /** The bits read in one step are all clear exactly when the masked word is zero. */
  lemma {:induction false} AnySetInWord(entries: seq<Word>, offset: nat, m: nat, invert: bool, e: nat, b: nat, word: Word, at: nat)
    requires e < |entries| && offset == BITS * e + b && b + m <= BITS && at + m <= BITS
    requires forall i :: 0 <= i < BITS ==> word[i] == (at <= i < at + m && entries[e][i - at + b] != invert)
    ensures offset + m <= BITS * |entries|
    ensures AnySet(entries, offset, m, invert) <==> word != Zeros()
  {
    if word != Zeros() {
      var i :| 0 <= i < BITS && word[i];
      BitAt(entries, e, i - at + b);
      assert Bit(entries, offset + (i - at)) != invert;
    }
    if AnySet(entries, offset, m, invert) {
      var q :| offset <= q < offset + m && Bit(entries, q) != invert;
      BitAt(entries, e, q - BITS * e);
      assert word[q - offset + at];
    }
  }

  /* ----- copying ----- */

  const UINT32_RANGE: nat := 0x1_0000_0000

  /** Positions are passed as 32-bit numbers. */
  function Position(pos: nat): (r: nat)
    ensures r <= pos && r < UINT32_RANGE && (pos < UINT32_RANGE ==> r == pos)
  {
    pos % UINT32_RANGE
  }

  method GetBit(entries: array<Word>, pos: nat) returns (r: bool)
    requires pos < BITS * entries.Length
    ensures r == Bit(entries[..], Position(pos))
  {
    var p := Position(pos);
    r := And(entries[p / BITS], SingleOne(p % BITS)) != Zeros();
    if entries[p / BITS][p % BITS] {
      assert And(entries[p / BITS], SingleOne(p % BITS))[p % BITS];
    }
  }

  method SetBit(entries: array<Word>, pos: nat, isNull: bool)
    requires pos < BITS * entries.Length
    modifies entries
    ensures Filled(entries[..], old(entries[..]), Position(pos), 1, isNull)
  {
    var p := Position(pos);
    var e, b := p / BITS, p % BITS;
    if isNull {
      entries[e] := Or(entries[e], SingleOne(b));
    } else {
      entries[e] := And(entries[e], Not(SingleOne(b)));
    }
  }

  /** The source word with only the bits to copy, moved to where they go. */
  method Aligned(entry: Word, from: nat, to: nat, m: nat, invert: bool) returns (r: Word)
    requires from + m <= BITS && to + m <= BITS && from < BITS && to < BITS
    ensures forall i :: 0 <= i < BITS ==> r[i] == (to <= i < to + m && entry[i - to + from] != invert)
  {
    r := if invert then Not(entry) else entry;
    if to < from {
      r := And(r, Not(HighMask(BITS - (from + m))));
      r := ShiftRight(r, from - to);
      r := And(r, Not(LowerMask(to)));
    } else if to > from {
      r := And(r, Not(LowerMask(from)));
      r := ShiftLeft(r, to - from);
      r := And(r, Not(HighMask(BITS - (to + m))));
    } else {
      r := And(r, Not(LowerMask(from)));
      r := And(r, Not(HighMask(BITS - (to + m))));
    }
  }

  /** Clearing the bits to copy and adding the moved source word copies them. */
  lemma {:induction false} WordStep(was: Word, to: nat, entry: Word, from: nat, m: nat, invert: bool, word: Word)
    requires from + m <= BITS && to + m <= BITS && to < BITS
    requires forall i :: 0 <= i < BITS ==> word[i] == (to <= i < to + m && entry[i - to + from] != invert)
    ensures var cleared := And(was, Not(ShiftLeft(LowerMask(m), to)));
            WordCopied(if word != Zeros() then Or(cleared, word) else cleared, was, to, entry, from, m, invert)
  {
    var cleared := And(was, Not(ShiftLeft(LowerMask(m), to)));
    assert WordCopied(Or(cleared, word), was, to, entry, from, m, invert);
    if word == Zeros() { assert Or(cleared, word) == cleared; }
  }

  function Min(a: nat, b: nat): nat { if a < b then a else b }

  /** Copies `m` bits from one word of `src` to one word of `dst`. */
  method CopyWithinWord(src: array<Word>, se: nat, sb: nat, dst: array<Word>, e: nat, b: nat, m: nat, invert: bool)
    returns (anySet: bool)
    requires src != dst && se < src.Length && e < dst.Length && sb < BITS && b < BITS && sb + m <= BITS && b + m <= BITS
    modifies dst
    ensures forall k :: 0 <= k < dst.Length && k != e ==> dst[k] == old(dst[k])
    ensures WordCopied(dst[e], old(dst[e]), b, src[se], sb, m, invert)
    ensures BITS * se + sb + m <= BITS * src.Length && anySet == AnySet(src[..], BITS * se + sb, m, invert)
  {
    var word := Aligned(src[se], sb, b, m, invert);
    AnySetInWord(src[..], BITS * se + sb, m, invert, se, sb, word, b);
    WordStep(dst[e], b, src[se], sb, m, invert, word);
    anySet := false;
    dst[e] := And(dst[e], Not(ShiftLeft(LowerMask(m), b)));
    if word != Zeros() {
      dst[e] := Or(dst[e], word);
      anySet := true;
    }
  }

  method CopyUnaligned(src: array<Word>, srcOffset: nat, dst: array<Word>, dstOffset: nat, n: nat, invert: bool)
    returns (anySet: bool)
    requires src != dst && srcOffset + n <= BITS * src.Length && dstOffset + n <= BITS * dst.Length
    modifies dst
    ensures Copied(dst[..], old(dst[..]), dstOffset, src[..], srcOffset, n, invert)
    ensures anySet == AnySet(src[..], srcOffset, n, invert)
  {
    var bitPos := 0;
    anySet := false;
    var srcEntry, srcBit := srcOffset / BITS, srcOffset % BITS;
    var dstEntry, dstBit := dstOffset / BITS, dstOffset % BITS;
    CopiedNothing(dst[..], dstOffset, src[..], srcOffset, invert);
    while bitPos < n
      invariant 0 <= bitPos <= n && 0 <= srcBit < BITS && 0 <= dstBit < BITS
      invariant bitPos < n ==> BITS * srcEntry + srcBit == srcOffset + bitPos && BITS * dstEntry + dstBit == dstOffset + bitPos
      invariant src[..] == old(src[..])
      invariant Copied(dst[..], old(dst[..]), dstOffset, src[..], srcOffset, bitPos, invert)
      invariant anySet == AnySet(src[..], srcOffset, bitPos, invert)
    {
      ghost var was := dst[..];
      var curEntry, curBit, se, sb := dstEntry, dstBit, srcEntry, srcBit;
      var m;
      if dstBit < srcBit {
        m := Min(BITS - srcBit, n - bitPos);
        srcEntry, srcBit := srcEntry + 1, 0;
        dstBit := dstBit + m;
      } else if dstBit > srcBit {
        m := Min(BITS - dstBit, n - bitPos);
        dstEntry, dstBit := dstEntry + 1, 0;
        srcBit := srcBit + m;
      } else {
        m := Min(BITS - dstBit, n - bitPos);
        srcEntry, dstEntry := srcEntry + 1, dstEntry + 1;
        srcBit, dstBit := 0, 0;
      }
      var any := CopyWithinWord(src, se, sb, dst, curEntry, curBit, m, invert);
      AnySetTwice(src[..], srcOffset, bitPos, m, invert);
      anySet := anySet || any;
      CopyStep(dst[..], was, old(dst[..]), dstOffset, src[..], srcOffset, bitPos, m, invert, curEntry, curBit, se, sb);
      bitPos := bitPos + m;
    }
  }

  /** Which of the first `n` single bits written from `to` on ends up at `p`, or -1. */
  function WrittenBy(p: nat, to: nat, n: nat): (k: int)
    ensures -1 <= k < n && (k >= 0 ==> Position(to + k) == p)
  {
    if n == 0 then -1 else if Position(to + n - 1) == p then n - 1 else WrittenBy(p, to, n - 1)
  }

  /** The bit at `p` after `n` bits were copied one by one, each position taken as a 32-bit number. */
  function FewBit(before: seq<Word>, to: nat, src: seq<Word>, from: nat, n: nat, invert: bool, p: nat): bool
    requires from + n <= BITS * |src| && p < BITS * |before|
  {
    var k := WrittenBy(p, to, n);
    if k >= 0 then Bit(src, Position(from + k)) != invert else Bit(before, p)
  }

  ghost predicate FewCopied(after: seq<Word>, before: seq<Word>, to: nat, src: seq<Word>, from: nat, n: nat, invert: bool)
    requires from + n <= BITS * |src|
  {
    && |after| == |before|
    && forall p :: 0 <= p < BITS * |before| ==> Bit(after, p) == FewBit(before, to, src, from, n, invert, p)
  }

  ghost predicate AnyFew(src: seq<Word>, from: nat, n: nat)
    requires from + n <= BITS * |src|
  {
    n > 0 && (AnyFew(src, from, n - 1) || Bit(src, Position(from + n - 1)))
  }

  /** Up to three bits are copied one by one; the flag is about the bits before inversion. */
  method CopyFewBits(src: array<Word>, srcOffset: nat, dst: array<Word>, dstOffset: nat, n: nat, invert: bool)
    returns (anySet: bool)
    requires src != dst && srcOffset + n <= BITS * src.Length && dstOffset + n <= BITS * dst.Length
    modifies dst
    ensures FewCopied(dst[..], old(dst[..]), dstOffset, src[..], srcOffset, n, invert)
    ensures anySet == AnyFew(src[..], srcOffset, n)
  {
    anySet := false;
    for i := 0 to n
      invariant src[..] == old(src[..])
      invariant FewCopied(dst[..], old(dst[..]), dstOffset, src[..], srcOffset, i, invert)
      invariant anySet == AnyFew(src[..], srcOffset, i)
    {
      ghost var was := dst[..];
      var isNull := GetBit(src, srcOffset + i);
      SetBit(dst, dstOffset + i, isNull != invert);
      FewStep(dst[..], was, old(dst[..]), dstOffset, src[..], srcOffset, i, invert);
      anySet := anySet || isNull;
    }
  }

  lemma {:induction false} FewStep(after: seq<Word>, was: seq<Word>, before: seq<Word>, to: nat, src: seq<Word>, from: nat,
                                   n: nat, invert: bool)
    requires from + n < BITS * |src| && FewCopied(was, before, to, src, from, n, invert)
    requires Filled(after, was, Position(to + n), 1, Bit(src, Position(from + n)) != invert)
    ensures FewCopied(after, before, to, src, from, n + 1, invert)
  {
    forall p | 0 <= p < BITS * |before| ensures Bit(after, p) == FewBit(before, to, src, from, n + 1, invert, p) {
      assert Bit(was, p) == FewBit(before, to, src, from, n, invert, p);
    }
  }

  /** The positions of at most three bits fit 32 bits; longer copies do not pass positions of bits. */
  predicate Fits32(from: nat, to: nat, n: nat) {
    n <= 3 ==> from + n <= UINT32_RANGE && to + n <= UINT32_RANGE
  }

  lemma {:induction false} WrittenInOrder(p: nat, to: nat, n: nat)
    requires to + n <= UINT32_RANGE
    ensures WrittenBy(p, to, n) == if to <= p < to + n then p - to else -1
  {
    if n > 0 { WrittenInOrder(p, to, n - 1); }
  }

  lemma {:induction false} AnyInOrder(src: seq<Word>, from: nat, n: nat)
    requires from + n <= BITS * |src| && from + n <= UINT32_RANGE
    ensures AnyFew(src, from, n) == AnySet(src, from, n, false)
  {
    if n > 0 {
      AnyInOrder(src, from, n - 1);
      AnySetTwice(src, from, n - 1, 1, false);
    }
  }

  /** Below 2^32 that is an exact copy. */
  lemma {:induction false} FewInOrder(after: seq<Word>, before: seq<Word>, to: nat, src: seq<Word>, from: nat, n: nat, invert: bool)
    requires from + n <= BITS * |src| && from + n <= UINT32_RANGE && to + n <= UINT32_RANGE
    requires FewCopied(after, before, to, src, from, n, invert)
    ensures Copied(after, before, to, src, from, n, invert)
  {
    forall p | 0 <= p < BITS * |before|
      ensures Bit(after, p) == if to <= p < to + n then Bit(src, from + (p - to)) != invert else Bit(before, p)
    {
      WrittenInOrder(p, to, n);
    }
  }

  const BYTE: nat := 8

  /** Copies whole bytes, which the words hold from the lowest bits up; also says whether one is not zero. */
  method CopyBytes(src: array<Word>, srcByte: nat, dst: array<Word>, dstByte: nat, n: nat) returns (anySet: bool)
    requires src != dst && BYTE * (srcByte + n) <= BITS * src.Length && BYTE * (dstByte + n) <= BITS * dst.Length
    modifies dst
    ensures Copied(dst[..], old(dst[..]), BYTE * dstByte, src[..], BYTE * srcByte, BYTE * n, false)
    ensures anySet == AnySet(src[..], BYTE * srcByte, BYTE * n, false)
  {
    anySet := false;
    CopiedNothing(dst[..], BYTE * dstByte, src[..], BYTE * srcByte, false);
    for i := 0 to n
      invariant src[..] == old(src[..])
      invariant Copied(dst[..], old(dst[..]), BYTE * dstByte, src[..], BYTE * srcByte, BYTE * i, false)
      invariant anySet == AnySet(src[..], BYTE * srcByte, BYTE * i, false)
    {
      ghost var was := dst[..];
      var e, b := (dstByte + i) / BYTE, (dstByte + i) % BYTE * BYTE;
      var se, sb := (srcByte + i) / BYTE, (srcByte + i) % BYTE * BYTE;
      var any := CopyWithinWord(src, se, sb, dst, e, b, BYTE, false);
      CopyStep(dst[..], was, old(dst[..]), BYTE * dstByte, src[..], BYTE * srcByte, BYTE * i, BYTE, false, e, b, se, sb);
      AnySetTwice(src[..], BYTE * srcByte, BYTE * i, BYTE, false);
      anySet := anySet || any;
    }
  }

  /** Whole bytes, and what is left of the last one. */
  method CopyFromByte(src: array<Word>, srcOffset: nat, dst: array<Word>, dstOffset: nat, n: nat) returns (anySet: bool)
    requires src != dst && srcOffset + n <= BITS * src.Length && dstOffset + n <= BITS * dst.Length
    requires srcOffset % BYTE == 0 && dstOffset % BYTE == 0
    modifies dst
    ensures Copied(dst[..], old(dst[..]), dstOffset, src[..], srcOffset, n, false)
    ensures anySet == AnySet(src[..], srcOffset, n, false)
  {
    var bytes, last := n / BYTE, n % BYTE;
    assert n == BYTE * bytes + last;
    assert BYTE * (srcOffset / BYTE) == srcOffset && BYTE * (dstOffset / BYTE) == dstOffset;
    anySet := CopyBytes(src, srcOffset / BYTE, dst, dstOffset / BYTE, bytes);
    if last > 0 {
      ghost var was := dst[..];
      var any := CopyUnaligned(src, srcOffset + bytes * BYTE, dst, dstOffset + bytes * BYTE, last, false);
      CopiedTwice(dst[..], was, old(dst[..]), dstOffset, src[..], srcOffset, BYTE * bytes, last, false);
      AnySetTwice(src[..], srcOffset, BYTE * bytes, last, false);
      anySet := any || anySet;
    }
  }

  /** When both offsets have the same place in their bytes: a first byte, whole bytes, a last byte. */
  method CopyByteAligned(src: array<Word>, srcOffset: nat, dst: array<Word>, dstOffset: nat, n: nat)
    returns (anySet: bool)
    requires src != dst && srcOffset + n <= BITS * src.Length && dstOffset + n <= BITS * dst.Length
    requires srcOffset % BYTE == dstOffset % BYTE && n >= BYTE && n - srcOffset % BYTE >= BYTE
    modifies dst
    ensures Copied(dst[..], old(dst[..]), dstOffset, src[..], srcOffset, n, false)
    ensures anySet == AnySet(src[..], srcOffset, n, false)
  {
    var first := 0;
    anySet := false;
    CopiedNothing(dst[..], dstOffset, src[..], srcOffset, false);
    if srcOffset != 0 {
      first := BYTE - srcOffset % BYTE;
      anySet := CopyUnaligned(src, srcOffset, dst, dstOffset, first, false);
    }
    ghost var was := dst[..];
    var any := CopyFromByte(src, srcOffset + first, dst, dstOffset + first, n - first);
    CopiedTwice(dst[..], was, old(dst[..]), dstOffset, src[..], srcOffset, first, n - first, false);
    AnySetTwice(src[..], srcOffset, first, n - first, false);
    anySet := any || anySet;
  }

  /**
    Copies exactly the given bits and changes no other, on each path, if single bits are addressed
    below 2^32. The flag says whether a bit was set, but for inverted copies of at most three bits,
    where it is about the source.
   */
  method CopyNullMask(src: array<Word>, srcOffset: nat, dst: array<Word>, dstOffset: nat, n: nat, invert: bool)
    returns (anySet: bool)
    requires src != dst && srcOffset + n <= BITS * src.Length && dstOffset + n <= BITS * dst.Length
    modifies dst
    ensures n <= 3 ==> FewCopied(dst[..], old(dst[..]), dstOffset, src[..], srcOffset, n, invert)
    ensures n <= 3 ==> anySet == AnyFew(src[..], srcOffset, n)
    ensures Fits32(srcOffset, dstOffset, n) ==> Copied(dst[..], old(dst[..]), dstOffset, src[..], srcOffset, n, invert)
    ensures Fits32(srcOffset, dstOffset, n) ==> anySet == AnySet(src[..], srcOffset, n, invert && n > 3)
  {
    if n <= 3 {
      anySet := CopyFewBits(src, srcOffset, dst, dstOffset, n, invert);
      if Fits32(srcOffset, dstOffset, n) {
        FewInOrder(dst[..], old(dst[..]), dstOffset, src[..], srcOffset, n, invert);
        AnyInOrder(src[..], srcOffset, n);
      }
      return;
    }
    if !invert && srcOffset % BYTE == dstOffset % BYTE && n >= BYTE && n - srcOffset % BYTE >= BYTE {
      anySet := CopyByteAligned(src, srcOffset, dst, dstOffset, n);
    } else {
      anySet := CopyUnaligned(src, srcOffset, dst, dstOffset, n, invert);
    }
  }

  lemma {:induction false} DistinctPositions(to: nat, i: nat, j: nat)
    requires i < j < i + UINT32_RANGE
    ensures Position(to + i) != Position(to + j)
  {
    var a, b := to + i, to + j;
    assert a == a / UINT32_RANGE * UINT32_RANGE + a % UINT32_RANGE;
    assert b == b / UINT32_RANGE * UINT32_RANGE + b % UINT32_RANGE;
  }

  lemma {:induction false} WrittenOnce(to: nat, n: nat, k: nat)
    requires k < n <= 3
    ensures WrittenBy(Position(to + k), to, n) == k
  {
    if k < n - 1 {
      DistinctPositions(to, k, n - 1);
      WrittenOnce(to, n - 1, k);
    }
  }

  /** The bit read is the one meant, or the bits at both places happen to be right already. */
  ghost predicate BitAgrees(before: seq<Word>, to: nat, src: seq<Word>, from: nat, i: nat, invert: bool)
    requires from + i < BITS * |src| && to + i < BITS * |before|
  {
    var read, meant := Bit(src, Position(from + i)) != invert, Bit(src, from + i) != invert;
    if to + i < UINT32_RANGE then read == meant else Bit(before, to + i) == meant && Bit(before, Position(to + i)) == read
  }

  ghost predicate FewAgree(before: seq<Word>, to: nat, src: seq<Word>, from: nat, n: nat, invert: bool)
    requires from + n <= BITS * |src| && to + n <= BITS * |before|
  {
    forall i :: 0 <= i < n ==> BitAgrees(before, to, src, from, i, invert)
  }

  /** Copying at most three bits is an exact copy if and only if all of them agree. */
  lemma {:induction false} FewExactly(after: seq<Word>, before: seq<Word>, to: nat, src: seq<Word>, from: nat, n: nat, invert: bool)
    requires n <= 3 && from + n <= BITS * |src| && to + n <= BITS * |before|
    requires FewCopied(after, before, to, src, from, n, invert)
    ensures Copied(after, before, to, src, from, n, invert) <==> FewAgree(before, to, src, from, n, invert)
  {
    if Copied(after, before, to, src, from, n, invert) {
      forall i | 0 <= i < n ensures BitAgrees(before, to, src, from, i, invert) {
        CopiedAgrees(after, before, to, src, from, n, invert, i);
      }
    }
    if FewAgree(before, to, src, from, n, invert) {
      forall p | 0 <= p < BITS * |before|
        ensures Bit(after, p) == if to <= p < to + n then Bit(src, from + (p - to)) != invert else Bit(before, p)
      {
        AgreedIsCopied(after, before, to, src, from, n, invert, p);
      }
    }
  }

  lemma {:induction false} NotWrittenHigh(p: nat, to: nat, n: nat)
    requires p >= UINT32_RANGE
    ensures WrittenBy(p, to, n) == -1
  {
  }

  lemma {:induction false} LowPosition(to: nat, i: nat, n: nat)
    requires i < n <= 3 && to + i >= UINT32_RANGE
    ensures !(to <= Position(to + i) < to + n)
  {
    assert to + i >= UINT32_RANGE + Position(to + i);
  }

  lemma {:induction false} CopiedAgrees(after: seq<Word>, before: seq<Word>, to: nat, src: seq<Word>, from: nat, n: nat,
                                        invert: bool, i: nat)
    requires i < n <= 3 && from + n <= BITS * |src| && to + n <= BITS * |before|
    requires FewCopied(after, before, to, src, from, n, invert) && Copied(after, before, to, src, from, n, invert)
    ensures BitAgrees(before, to, src, from, i, invert)
  {
    WrittenOnce(to, n, i);
    assert Bit(after, Position(to + i)) == (Bit(src, Position(from + i)) != invert);
    assert Bit(after, to + i) == (Bit(src, from + (to + i - to)) != invert);
    if to + i >= UINT32_RANGE {
      NotWrittenHigh(to + i, to, n);
      LowPosition(to, i, n);
    }
  }

  lemma {:induction false} AgreedIsCopied(after: seq<Word>, before: seq<Word>, to: nat, src: seq<Word>, from: nat, n: nat,
                                          invert: bool, p: nat)
    requires n <= 3 && from + n <= BITS * |src| && to + n <= BITS * |before| && p < BITS * |before|
    requires FewCopied(after, before, to, src, from, n, invert) && FewAgree(before, to, src, from, n, invert)
    ensures Bit(after, p) == if to <= p < to + n then Bit(src, from + (p - to)) != invert else Bit(before, p)
  {
    var k := WrittenBy(p, to, n);
    assert Bit(after, p) == FewBit(before, to, src, from, n, invert, p);
    if k >= 0 {
      assert BitAgrees(before, to, src, from, k, invert);
      if to + k >= UINT32_RANGE { LowPosition(to, k, n); }
    } else if to <= p < to + n {
      WrittenOnce(to, n, p - to);
      assert to + (p - to) == p;
      assert BitAgrees(before, to, src, from, p - to, invert);
    }
  }

  /** Bit 2^32 of a clear mask written set: bit 0 is set in its place. */
  lemma {:induction false} HighBitMisplaced(after: seq<Word>, before: seq<Word>, src: seq<Word>)
    requires UINT32_RANGE < BITS * |before| && 1 <= BITS * |src| && Bit(src, 0)
    requires !Bit(before, 0) && !Bit(before, UINT32_RANGE) && FewCopied(after, before, UINT32_RANGE, src, 0, 1, false)
    ensures Bit(after, 0) && !Bit(after, UINT32_RANGE)
  {
    WrittenOnce(UINT32_RANGE, 1, 0);
    NotWrittenHigh(UINT32_RANGE, UINT32_RANGE, 1);
    assert Position(UINT32_RANGE + 0) == 0;
  }

  /**
    The flag is documented to say whether a set bit was written. It does, if and only if the copy
    is not an inverted one of one to three bits, or these bits are not all alike.
   */
  lemma {:induction false} ReportsWritten(src: seq<Word>, offset: nat, n: nat, invert: bool)
    requires offset + n <= BITS * |src|
    ensures AnySet(src, offset, n, invert && n > 3) == AnySet(src, offset, n, invert) <==>
            !(invert && 1 <= n <= 3) || (AnySet(src, offset, n, false) && AnySet(src, offset, n, true))
  {
    if n > 0 { assert Bit(src, offset) || !Bit(src, offset); }
  }

  /** One clear bit copied inverted: a set bit is written and reported as none. */
  lemma {:induction false} ClearBitMisreported(src: seq<Word>)
    requires src == [Zeros()]
    ensures !AnySet(src, 0, 1, true && 1 > 3) && AnySet(src, 0, 1, true)
  {
    assert !Bit(src, 0);
  }

  /** One set bit copied inverted: a clear bit is written and reported as set. */
  lemma {:induction false} SetBitMisreported(src: seq<Word>)
    requires src == [SingleOne(0)]
    ensures AnySet(src, 0, 1, true && 1 > 3) && !AnySet(src, 0, 1, true)
  {
    assert Bit(src, 0);
  }

  /* ----- ranges ----- */

  method FillWords(entries: array<Word>, lo: nat, hi: nat, isNull: bool)
    requires lo <= hi <= entries.Length
    modifies entries
    ensures forall k :: 0 <= k < entries.Length && !(lo <= k < hi) ==> entries[k] == old(entries[k])
    ensures forall k, b :: lo <= k < hi && 0 <= b < BITS ==> entries[k][b] == isNull
  {
    for i := lo to hi
      invariant forall k :: 0 <= k < entries.Length && !(lo <= k < i) ==> entries[k] == old(entries[k])
      invariant forall k, b :: lo <= k < i && 0 <= b < BITS ==> entries[k][b] == isNull
    {
      entries[i] := if isNull then Not(Zeros()) else Zeros();
    }
  }

  method SetNullRange(entries: array<Word>, offset: nat, n: nat, isNull: bool)
    requires offset + n <= BITS * entries.Length
    modifies entries
    ensures Filled(entries[..], old(entries[..]), offset, n, isNull)
  {
    if n == 0 {
      return;
    }
    var firstEntry, firstBit := offset / BITS, offset % BITS;
    var lastEntry, lastBit := (offset + n) / BITS, (offset + n) % BITS;
    if lastEntry > firstEntry + 1 {
      FillWords(entries, firstEntry + 1, lastEntry, isNull);
    }
    if firstEntry == lastEntry {
      if isNull {
        entries[firstEntry] := Or(entries[firstEntry], And(Not(LowerMask(firstBit)), Not(HighMask(BITS - lastBit))));
      } else {
        entries[firstEntry] := And(entries[firstEntry], Or(LowerMask(firstBit), HighMask(BITS - lastBit)));
      }
    } else {
      if isNull {
        entries[firstEntry] := Or(entries[firstEntry], Not(LowerMask(firstBit)));
        if lastBit > 0 {
          entries[lastEntry] := Or(entries[lastEntry], LowerMask(lastBit));
        }
      } else {
        entries[firstEntry] := And(entries[firstEntry], LowerMask(firstBit));
        if lastBit > 0 {
          entries[lastEntry] := And(entries[lastEntry], Not(LowerMask(lastBit)));
        }
      }
    }
  }

  /** All bits from `offset` on, `n` of them, are set. */
  ghost predicate AllSet(entries: seq<Word>, offset: nat, n: nat)
    requires offset + n <= BITS * |entries|
  {
    !AnySet(entries, offset, n, true)
  }

  /** Comparing masked words with zero and with the mask tells whether any and all of the masked bits are set. */
  method WordMinMax(entries: array<Word>, e: nat, b: nat, m: nat, mask: Word) returns (min: bool, max: bool)
    requires e < entries.Length && b + m <= BITS && m > 0
    requires forall i :: 0 <= i < BITS ==> mask[i] == (b <= i < b + m)
    ensures min == AllSet(entries[..], BITS * e + b, m)
    ensures max == AnySet(entries[..], BITS * e + b, m, false)
    ensures min ==> max
  {
    var masked := And(entries[e], mask);
    AnySetInWord(entries[..], BITS * e + b, m, false, e, b, masked, b);
    var clear := And(Not(entries[e]), mask);
    AnySetInWord(entries[..], BITS * e + b, m, true, e, b, clear, b);
    assert masked == mask <==> clear == Zeros() by {
      if masked == mask {
        forall i | 0 <= i < BITS ensures !clear[i] { assert masked[i] == mask[i]; }
        assert clear == Zeros();
      } else {
        var i :| 0 <= i < BITS && masked[i] != mask[i];
        assert clear[i];
      }
    }
    assert mask[b] && masked == Zeros() ==> masked != mask;
    if masked == Zeros() {
      return false, false;
    } else if masked == mask {
      return true, true;
    } else {
      return false, true;
    }
  }

  /** The least and the greatest flag of a range that is not empty: whether all and whether any are set. */
  method GetMinMax(entries: array<Word>, offset: nat, n: nat) returns (min: bool, max: bool)
    requires n > 0 && offset + n <= BITS * entries.Length
    ensures min == AllSet(entries[..], offset, n)
    ensures max == AnySet(entries[..], offset, n, false)
  {
    var e, b := offset / BITS, offset % BITS;
    if b + n <= BITS {
      var mask := And(HighMask(BITS - b), LowerMask(b + n));
      min, max := WordMinMax(entries, e, b, n, mask);
      return;
    }
    ghost var bits := entries[..];
    var rest := n;
    if b > 0 {
      min, max := WordMinMax(entries, e, b, BITS - b, HighMask(BITS - b));
      if min != max {
        Uniform(bits, offset, BITS - b, n, Bit(bits, offset));
        return;
      }
      e := e + 1;
      rest := rest - (BITS - b);
    } else {
      var first := IsSet(entries, e);
      min, max := first, first;
    }
    min, max := RestMinMax(entries, e, rest, min, offset, n);
  }

  /** The rest of the range, from a whole word on, when all bits before it are `v`. */
  method RestMinMax(entries: array<Word>, e: nat, rest: nat, v: bool, ghost offset: nat, ghost n: nat)
    returns (min: bool, max: bool)
    requires 0 < n && rest <= n && offset + n <= BITS * entries.Length && BITS * e == offset + n - rest
    requires v == Bit(entries[..], offset) && !AnySet(entries[..], offset, n - rest, v)
    ensures min == AllSet(entries[..], offset, n)
    ensures max == AnySet(entries[..], offset, n, false)
  {
    var baseline := if v then Not(Zeros()) else Zeros();
    ghost var bits, done := entries[..], n - rest;
    var i := 0;
    while i < rest / BITS
      invariant 0 <= i <= rest / BITS && !AnySet(bits, offset, done + BITS * i, v)
    {
      FullWord(bits, e + i, v);
      AnySetTwice(bits, offset, done + BITS * i, BITS, v);
      if entries[e + i] != baseline {
        Uniform(bits, offset, done + BITS * i + BITS, n, v);
        return false, true;
      }
      i := i + 1;
    }
    Uniform(bits, offset, done + BITS * i, n, v);
    if rest % BITS > 0 {
      min, max := LastWordMinMax(entries, e + i, rest % BITS, v);
      AnySetTwice(bits, offset, done + BITS * i, rest % BITS, v);
    } else {
      return v, v;
    }
  }

  /** Combines the last `m` bits with those before them, which are all `v`. */
  method LastWordMinMax(entries: array<Word>, e: nat, m: nat, v: bool) returns (min: bool, max: bool)
    requires e < entries.Length && 0 < m < BITS
    ensures if AnySet(entries[..], BITS * e, m, v) then !min && max else min == max == v
  {
    var lo, hi := WordMinMax(entries, e, 0, m, LowerMask(m));
    if !hi {
      return false, v;
    } else if lo {
      return v, true;
    } else {
      return false, true;
    }
  }

  /** If the first bit of a range is `v` and some bit is not, then both values occur in it. */
  lemma {:induction false} Uniform(entries: seq<Word>, offset: nat, m: nat, n: nat, v: bool)
    requires offset + n <= BITS * |entries| && m <= n && 0 < n && Bit(entries, offset) == v
    ensures AnySet(entries, offset, m, v) ==> AnySet(entries, offset, n, v)
    ensures AnySet(entries, offset, n, !v) && (0 < m ==> AnySet(entries, offset, m, !v))
  {
    assert Bit(entries, offset) != !v;
  }

  lemma {:induction false} FullWord(entries: seq<Word>, e: nat, v: bool)
    requires e < |entries|
    ensures entries[e] == (if v then Not(Zeros()) else Zeros()) <==> !AnySet(entries, BITS * e, BITS, v)
  {
    var word := if v then Not(entries[e]) else entries[e];
    AnySetInWord(entries, BITS * e, BITS, v, e, 0, word, 0);
    if v && word == Zeros() {
      forall i | 0 <= i < BITS ensures entries[e][i] == Not(Zeros())[i] { assert !word[i]; }
    }
    if v && entries[e] == Not(Zeros()) { assert word == Zeros(); }
  }

  method IsSet(entries: array<Word>, e: nat) returns (r: bool)
    requires e < entries.Length
    ensures r == Bit(entries[..], BITS * e)
  {
    r := And(entries[e], SingleOne(0)) != Zeros();
    BitAt(entries[..], e, 0);
    if entries[e][0] { assert And(entries[e], SingleOne(0))[0]; }
  }

  /* ----- the guarantee that a mask holds no nulls ----- */

  ghost predicate NoneSet(entries: seq<Word>) {
    !AnySet(entries, 0, BITS * |entries|, false)
  }

  /** After a copy into clear bits none is set exactly when none was written. */
  lemma {:induction false} NoneCopied(after: seq<Word>, before: seq<Word>, to: nat, src: seq<Word>, from: nat, n: nat, invert: bool)
    requires from + n <= BITS * |src| && to + n <= BITS * |before| && Copied(after, before, to, src, from, n, invert)
    requires NoneSet(before)
    ensures NoneSet(after) <==> !AnySet(src, from, n, invert)
  {
    if AnySet(src, from, n, invert) {
      var q :| from <= q < from + n && Bit(src, q) != invert;
      assert Bit(after, to + (q - from));
    }
    if !NoneSet(after) {
      var p :| 0 <= p < BITS * |after| && Bit(after, p);
      assert Bit(before, p) == Bit(before, p);
      assert to <= p < to + n && Bit(src, from + (p - to)) != invert;
    }
  }

  lemma {:induction false} NoneFilled(after: seq<Word>, before: seq<Word>, offset: nat, n: nat)
    requires Filled(after, before, offset, n, false) && NoneSet(before)
    ensures NoneSet(after)
  {
    forall p | 0 <= p < BITS * |after| ensures !Bit(after, p) { assert !Bit(before, p); }
  }

  /** Copying from clear bits is filling with the inversion flag. */
  lemma {:induction false} CopyOfNone(after: seq<Word>, before: seq<Word>, to: nat, src: seq<Word>, from: nat, n: nat, invert: bool)
    requires from + n <= BITS * |src| && NoneSet(src) && Filled(after, before, to, n, invert)
    ensures Copied(after, before, to, src, from, n, invert)
  {
    forall p | 0 <= p < BITS * |before|
      ensures Bit(after, p) == if to <= p < to + n then Bit(src, from + (p - to)) != invert else Bit(before, p)
    {
      if to <= p < to + n { assert !Bit(src, from + (p - to)); }
    }
  }

  function NumNullEntries(bits: nat): nat { (bits + BITS - 1) / BITS }

  class NullMask {
    var data: array<Word>
    var mayContainNulls: bool

    /** Without nulls promised none is set; readers skip the bits of such a mask. */
    ghost predicate Guarantee()
      reads this, data
    {
      !mayContainNulls ==> NoneSet(data[..])
    }

    constructor (capacity: nat)
      ensures fresh(data) && capacity <= BITS * data.Length && !mayContainNulls && Guarantee()
      ensures data.Length == NumNullEntries(capacity)
    {
      var entries := new Word[NumNullEntries(capacity)](_ => Zeros());
      data := entries;
      mayContainNulls := false;
      new;
      assert forall p :: 0 <= p < BITS * data.Length ==> !Bit(data[..], p);
    }

    method SetAllNonNull()
      requires Guarantee()
      modifies this, data
      ensures data == old(data) && Guarantee() && !mayContainNulls
    {
      if !mayContainNulls {
        return;
      }
      FillWords(data, 0, data.Length, false);
      mayContainNulls := false;
    }

    method SetAllNull()
      modifies this, data
      ensures data == old(data) && Guarantee() && AllSet(data[..], 0, BITS * data.Length)
    {
      FillWords(data, 0, data.Length, true);
      mayContainNulls := true;
    }

    method SetNull(pos: nat, isNull: bool)
      requires pos < BITS * data.Length && pos < UINT32_RANGE
      modifies this, data
      ensures data == old(data) && Filled(data[..], old(data[..]), pos, 1, isNull)
      ensures old(Guarantee()) ==> Guarantee()
    {
      SetBit(data, pos, isNull);
      if isNull {
        mayContainNulls := true;
      } else if old(NoneSet(data[..])) {
        NoneFilled(data[..], old(data[..]), pos, 1);
      }
    }

    method SetNullFromRange(offset: nat, n: nat, isNull: bool)
      requires offset + n <= BITS * data.Length
      modifies this, data
      ensures data == old(data) && Filled(data[..], old(data[..]), offset, n, isNull)
      ensures mayContainNulls == (old(mayContainNulls) || isNull)
      ensures old(Guarantee()) ==> Guarantee()
    {
      if isNull {
        mayContainNulls := true;
      }
      SetNullRange(data, offset, n, isNull);
      if !isNull && old(NoneSet(data[..])) {
        NoneFilled(data[..], old(data[..]), offset, n);
      }
    }

    /**
      The guarantee is kept, if and only if this is not an inverted copy of one to three clear bits
      into a mask that promises no nulls.
     */
    method CopyFromNullBits(src: array<Word>, srcOffset: nat, dstOffset: nat, n: nat, invert: bool) returns (anySet: bool)
      requires src != data && srcOffset + n <= BITS * src.Length && dstOffset + n <= BITS * data.Length
      modifies this, data
      ensures data == old(data) && mayContainNulls == (old(mayContainNulls) || anySet)
      ensures n <= 3 ==> FewCopied(data[..], old(data[..]), dstOffset, src[..], srcOffset, n, invert)
      ensures n <= 3 ==> anySet == AnyFew(src[..], srcOffset, n)
      ensures Fits32(srcOffset, dstOffset, n) ==>
                && Copied(data[..], old(data[..]), dstOffset, src[..], srcOffset, n, invert)
                && anySet == AnySet(src[..], srcOffset, n, invert && n > 3)
      ensures Fits32(srcOffset, dstOffset, n) && old(Guarantee()) ==>
                (Guarantee() <==>
                 !(invert && 1 <= n <= 3 && !old(mayContainNulls) && !AnySet(src[..], srcOffset, n, false)))
    {
      anySet := CopyNullMask(src, srcOffset, data, dstOffset, n, invert);
      if anySet {
        mayContainNulls := true;
      }
      if Fits32(srcOffset, dstOffset, n) && old(NoneSet(data[..])) {
        NoneCopied(data[..], old(data[..]), dstOffset, src[..], srcOffset, n, invert);
        ReportsWritten(src[..], srcOffset, n, invert);
        FirstBit(src[..], srcOffset, n);
      }
    }

    /** A source that promises no nulls is not read. */
    method CopyFrom(other: NullMask, srcOffset: nat, dstOffset: nat, n: nat, invert: bool) returns (anySet: bool)
      requires other != this && other.data != data && other.Guarantee()
      requires srcOffset + n <= BITS * other.data.Length && dstOffset + n <= BITS * data.Length
      modifies this, data
      ensures data == old(data) && mayContainNulls == (old(mayContainNulls) || anySet)
      ensures !other.mayContainNulls ==>
                anySet == invert && Copied(data[..], old(data[..]), dstOffset, other.data[..], srcOffset, n, invert)
      ensures other.mayContainNulls && Fits32(srcOffset, dstOffset, n) ==>
                && Copied(data[..], old(data[..]), dstOffset, other.data[..], srcOffset, n, invert)
                && anySet == AnySet(other.data[..], srcOffset, n, invert && n > 3)
      ensures (!other.mayContainNulls || Fits32(srcOffset, dstOffset, n)) && old(Guarantee()) ==>
                (Guarantee() <==>
                 !(invert && 1 <= n <= 3 && !old(mayContainNulls) && other.mayContainNulls
                   && !AnySet(other.data[..], srcOffset, n, false)))
    {
      if !other.mayContainNulls {
        SetNullFromRange(dstOffset, n, invert);
        CopyOfNone(data[..], old(data[..]), dstOffset, other.data[..], srcOffset, n, invert);
        return invert;
      }
      anySet := CopyFromNullBits(other.data, srcOffset, dstOffset, n, invert);
    }

    /** The union of two masks does not update the promise, so it holds only if it held of both. */
    method OrWith(other: NullMask)
      requires other.data != data && other.data.Length == data.Length
      modifies data
      ensures forall p :: 0 <= p < BITS * data.Length ==>
                Bit(data[..], p) == (old(Bit(data[..], p)) || Bit(other.data[..], p))
      ensures old(Guarantee()) ==> (Guarantee() <==> mayContainNulls || NoneSet(other.data[..]))
    {
      ghost var was := data[..];
      for i := 0 to data.Length
        invariant forall k :: i <= k < data.Length ==> data[k] == was[k]
        invariant forall k, b :: 0 <= k < i && 0 <= b < BITS ==> data[k][b] == (was[k][b] || other.data[k][b])
      {
        data[i] := Or(data[i], other.data[i]);
      }
      assert forall p :: 0 <= p < BITS * data.Length ==> Bit(data[..], p) == (Bit(was, p) || Bit(other.data[..], p));
    }
  }

  lemma {:induction false} FirstBit(src: seq<Word>, offset: nat, n: nat)
    requires offset + n <= BITS * |src|
    ensures n > 0 ==> AnySet(src, offset, n, false) || AnySet(src, offset, n, true)
  {
    if n > 0 { assert Bit(src, offset) || !Bit(src, offset); }
  }

  /** A clear bit copied inverted, and the union with a set bit: both masks still promise no nulls. */
  method BrokenPromises() returns (copied: NullMask, joined: NullMask)
    ensures !copied.Guarantee() && !joined.Guarantee()
  {
    var src := new NullMask(1);
    src.SetNull(0, true);
    copied := new NullMask(1);
    joined := new NullMask(1);
    assert Bit(src.data[..], 0);
    joined.OrWith(src);
    src.SetNull(0, false);
    assert !Bit(src.data[..], 0);
    var _ := copied.CopyFromNullBits(src.data, 0, 0, 1, true);
  }
}

/**
  Substring search by comparing words, or by a rolling sum of bytes for long needles
  (function/find_function.cpp), against the definition of the first occurrence.
 */
module Find {
  type Byte = bv8

  const UINT32_RANGE: nat := 0x1_0000_0000

  predicate OccursAt(haystack: seq<Byte>, needle: seq<Byte>, k: nat) {
    k + |needle| <= |haystack| && forall i :: 0 <= i < |needle| ==> haystack[k + i] == needle[i]
  }

  lemma {:induction false} OccursSlice(haystack: seq<Byte>, needle: seq<Byte>, k: nat)
    requires k + |needle| <= |haystack|
    ensures OccursAt(haystack, needle, k) <==> haystack[k..k + |needle|] == needle
  {
    var s := haystack[k..k + |needle|];
    assert forall i :: 0 <= i < |needle| ==> s[i] == haystack[k + i];
  }

  /** `r` is the least index at which the needle occurs, or -1 when it occurs nowhere. */
  ghost predicate IsFirst(haystack: seq<Byte>, needle: seq<Byte>, r: int) {
    if r < 0 then r == -1 && forall k: nat :: !OccursAt(haystack, needle, k)
    else OccursAt(haystack, needle, r) && forall k: nat :: k < r ==> !OccursAt(haystack, needle, k)
  }

  /** The bytes from `k` on are the needle. */
  predicate SliceAt(haystack: seq<Byte>, needle: seq<Byte>, k: nat) {
    k + |needle| <= |haystack| && haystack[k..k + |needle|] == needle
  }

  /** That is the one place at which the needle can be cut out and before which it cannot. */
  lemma {:induction false} FirstMeans(haystack: seq<Byte>, needle: seq<Byte>, r: int)
    ensures IsFirst(haystack, needle, r) <==>
            if exists k: nat :: SliceAt(haystack, needle, k)
            then r >= 0 && SliceAt(haystack, needle, r) && forall k: nat :: k < r ==> !SliceAt(haystack, needle, k)
            else r == -1
  {
    forall k: nat ensures OccursAt(haystack, needle, k) <==> SliceAt(haystack, needle, k) {
      if k + |needle| <= |haystack| { OccursSlice(haystack, needle, k); }
    }
  }

  /* ----- words, most significant byte first ----- */

  function Or(a: seq<Byte>, b: seq<Byte>): (r: seq<Byte>)
    requires |a| == |b|
    ensures |r| == |a| && forall i :: 0 <= i < |a| ==> r[i] == (a[i] | b[i])
  {
    if a == [] then [] else Or(a[..|a| - 1], b[..|a| - 1]) + [a[|a| - 1] | b[|a| - 1]]
  }

  function Zeros(n: nat): (r: seq<Byte>)
    ensures |r| == n && forall i :: 0 <= i < n ==> r[i] == 0
  {
    if n == 0 then [] else Zeros(n - 1) + [0]
  }

  /** A word of `size` bytes that is zero but for byte `i`: the byte shifted left. */
  function Shifted(b: Byte, i: nat, size: nat): (r: seq<Byte>)
    requires i < size
    ensures |r| == size && forall k :: 0 <= k < size ==> r[k] == if k == i then b else 0
  {
    Zeros(size)[i := b]
  }

  /** A word shifted left by one byte. */
  function ShiftByte(w: seq<Byte>): (r: seq<Byte>)
    requires w != []
    ensures |r| == |w|
  {
    w[1..] + [0]
  }

  /** The word holds `n` bytes of `s`, from `k` on, in its high bytes. */
  ghost predicate Holds(w: seq<Byte>, s: seq<Byte>, k: nat, n: nat)
    requires k + n <= |s|
  {
    n <= |w| && forall i :: 0 <= i < |w| ==> w[i] == if i < n then s[k + i] else 0
  }

  lemma {:induction false} HoldsEqual(w: seq<Byte>, s: seq<Byte>, k: nat, v: seq<Byte>, needle: seq<Byte>)
    requires k + |needle| <= |s| && |w| == |v| && Holds(w, s, k, |needle|) && Holds(v, needle, 0, |needle|)
    ensures w == v <==> OccursAt(s, needle, k)
  {
    if OccursAt(s, needle, k) {
      forall i | 0 <= i < |w| ensures w[i] == v[i] { if i < |needle| { assert s[k + i] == needle[i]; } }
    }
    if w == v {
      forall i | 0 <= i < |needle| ensures s[k + i] == needle[i] { assert w[i] == v[i] && v[i] == needle[0 + i]; }
    }
  }

  /* ----- the searches ----- */

  /** Adds the next byte to a word that is being filled. */
  method AddByte(w: seq<Byte>, s: seq<Byte>, n: nat) returns (r: seq<Byte>)
    requires n < |s| && n < |w| && Holds(w, s, 0, n)
    ensures |r| == |w| && Holds(r, s, 0, n + 1)
  {
    r := Or(w, Shifted(s[n], n, |w|));
  }

  /** Drops the first byte of the window and adds the one behind it. */
  method SlideWindow(w: seq<Byte>, s: seq<Byte>, ghost k: nat, n: nat, next: Byte) returns (r: seq<Byte>)
    requires 0 < n && k + n < |s| && next == s[k + n] && Holds(w, s, k, n)
    ensures |r| == |w| && Holds(r, s, k + 1, n)
  {
    r := Or(ShiftByte(w), Shifted(next, n - 1, |w|));
    forall i | 0 <= i < |w| ensures r[i] == if i < n then s[k + 1 + i] else 0 {
      if i < n - 1 { assert w[i + 1] == s[k + (i + 1)]; }
    }
  }

  method LoadEntries(haystack: seq<Byte>, needle: seq<Byte>, size: nat) returns (haystackEntry: seq<Byte>, needleEntry: seq<Byte>)
    requires |needle| <= size && |needle| <= |haystack|
    ensures |haystackEntry| == |needleEntry| == size
    ensures Holds(haystackEntry, haystack, 0, |needle|) && Holds(needleEntry, needle, 0, |needle|)
  {
    needleEntry, haystackEntry := Zeros(size), Zeros(size);
    for i := 0 to |needle|
      invariant |haystackEntry| == |needleEntry| == size
      invariant Holds(needleEntry, needle, 0, i) && Holds(haystackEntry, haystack, 0, i)
    {
      needleEntry := AddByte(needleEntry, needle, i);
      haystackEntry := AddByte(haystackEntry, haystack, i);
    }
  }

  /** Slides a window of the needle's length, held in a wider word, over the haystack. */
  method UnalignedNeedleSizeFind(haystack: seq<Byte>, needle: seq<Byte>, size: nat) returns (r: int)
    requires 0 < |needle| <= size
    ensures IsFirst(haystack, needle, r)
  {
    var n := |needle|;
    if n > |haystack| {
      return -1;
    }
    var haystackEntry, needleEntry := LoadEntries(haystack, needle, size);
    for offset := n to |haystack|
      invariant |haystackEntry| == size && Holds(haystackEntry, haystack, offset - n, n)
      invariant forall k: nat :: k < offset - n ==> !OccursAt(haystack, needle, k)
    {
      HoldsEqual(haystackEntry, haystack, offset - n, needleEntry, needle);
      if haystackEntry == needleEntry {
        return offset - n;
      }
      haystackEntry := SlideWindow(haystackEntry, haystack, offset - n, n, haystack[offset]);
    }
    HoldsEqual(haystackEntry, haystack, |haystack| - n, needleEntry, needle);
    if haystackEntry == needleEntry {
      return |haystack| - n;
    }
    return -1;
  }

  /** Compares a whole word at every offset; the needle is one word long. */
  method AlignedNeedleSizeFind(haystack: seq<Byte>, needle: seq<Byte>) returns (r: int)
    ensures IsFirst(haystack, needle, r)
  {
    if |needle| > |haystack| {
      return -1;
    }
    for offset := 0 to |haystack| - |needle| + 1
      invariant forall k: nat :: k < offset ==> !OccursAt(haystack, needle, k)
    {
      OccursSlice(haystack, needle, offset);
      if needle == haystack[offset..offset + |needle|] {
        return offset;
      }
    }
    return -1;
  }

  function Sum(bytes: seq<Byte>): int {
    if bytes == [] then 0 else Sum(bytes[..|bytes| - 1]) + bytes[|bytes| - 1] as int
  }

  lemma {:induction false} SumTail(bytes: seq<Byte>)
    requires bytes != []
    ensures Sum(bytes) == bytes[0] as int + Sum(bytes[1..])
  {
    if |bytes| > 1 {
      SumTail(bytes[..|bytes| - 1]);
      assert bytes[..|bytes| - 1][1..] == bytes[1..][..|bytes| - 2];
    }
  }

  /** Moving the window on by one changes its sum by the byte that enters less the byte that leaves. */
  lemma {:induction false} SumSlides(s: seq<Byte>, offset: nat, n: nat)
    requires 0 < n && offset + n < |s|
    ensures Sum(s[offset + 1..offset + 1 + n]) == Sum(s[offset..offset + n]) - s[offset] as int + s[offset + n] as int
  {
    var was, now := s[offset..offset + n], s[offset + 1..offset + 1 + n];
    SumTail(was);
    assert now[..n - 1] == was[1..];
  }

  /** 32-bit unsigned arithmetic wraps around. */
  function Wrap(x: int): (r: nat)
    ensures r < UINT32_RANGE && (x == 0 ==> r == 0)
  {
    x % UINT32_RANGE
  }

  lemma {:induction false} WrapTwice(x: int, d: int, e: int)
    ensures Wrap(Wrap(Wrap(x) + d) + e) == Wrap(x + d + e)
  {
  }

  /** The difference of the sums of the first window and the needle. */
  method FirstDifference(haystack: seq<Byte>, needle: seq<Byte>) returns (sumsDiff: nat)
    requires |needle| <= |haystack|
    ensures sumsDiff == Wrap(Sum(haystack[..|needle|]) - Sum(needle))
  {
    sumsDiff := 0;
    for i := 0 to |needle|
      invariant sumsDiff == Wrap(Sum(haystack[..i]) - Sum(needle[..i]))
    {
      assert haystack[..i + 1][..i] == haystack[..i] && needle[..i + 1][..i] == needle[..i];
      var entering, leaving := haystack[i] as int, needle[i] as int;
      WrapTwice(Sum(haystack[..i]) - Sum(needle[..i]), entering, -leaving);
      sumsDiff := Wrap(sumsDiff + entering);
      sumsDiff := Wrap(sumsDiff - leaving);
    }
    assert needle[..|needle|] == needle;
  }

  /** Moves the window of the sum on by one. */
  method RollSum(haystack: seq<Byte>, offset: nat, n: nat, diff: nat, ghost sum: int) returns (sumsDiff: nat)
    requires 0 < n && offset + n < |haystack| && diff == Wrap(Sum(haystack[offset..offset + n]) - sum)
    ensures sumsDiff == Wrap(Sum(haystack[offset + 1..offset + 1 + n]) - sum)
  {
    SumSlides(haystack, offset, n);
    var leaving, entering := haystack[offset] as int, haystack[offset + n] as int;
    WrapTwice(Sum(haystack[offset..offset + n]) - sum, -leaving, entering);
    sumsDiff := Wrap(diff - leaving);
    sumsDiff := Wrap(sumsDiff + entering);
  }

  lemma {:induction false} NoDifference(haystack: seq<Byte>, needle: seq<Byte>, k: nat)
    requires needle != [] && OccursAt(haystack, needle, k)
    ensures Wrap(Sum(haystack[k..k + |needle|]) - Sum(needle)) == 0 && haystack[k] == needle[0]
  {
    OccursSlice(haystack, needle, k);
    assert haystack[k + 0] == needle[0];
  }

  /** Compares the needle only where the rolling sum and the first byte agree. */
  method GenericFind(haystack: seq<Byte>, needle: seq<Byte>) returns (r: int)
    requires needle != []
    ensures IsFirst(haystack, needle, r)
  {
    var n := |needle|;
    if n > |haystack| {
      return -1;
    }
    var sumsDiff := FirstDifference(haystack, needle);
    assert haystack[..n] == haystack[0..0 + n];
    var offset := 0;
    while true
      invariant 0 <= offset && offset + n <= |haystack|
      invariant sumsDiff == Wrap(Sum(haystack[offset..offset + n]) - Sum(needle))
      invariant forall k: nat :: k < offset ==> !OccursAt(haystack, needle, k)
      decreases |haystack| - offset
    {
      OccursSlice(haystack, needle, offset);
      if sumsDiff == 0 && haystack[offset] == needle[0] {
        if haystack[offset..offset + n] == needle {
          return offset;
        }
      }
      if OccursAt(haystack, needle, offset) { NoDifference(haystack, needle, offset); }
      if offset >= |haystack| - n {
        return -1;
      }
      sumsDiff := RollSum(haystack, offset, n, sumsDiff, Sum(needle));
      offset := offset + 1;
    }
  }

  method FindByte(haystack: seq<Byte>, b: Byte) returns (r: nat)
    ensures r <= |haystack| && (r < |haystack| ==> haystack[r] == b) && b !in haystack[..r]
  {
    r := 0;
    while r < |haystack| && haystack[r] != b
      invariant r <= |haystack| && b !in haystack[..r]
    {
      r := r + 1;
    }
  }

  /** Searching behind the bytes that cannot begin an occurrence loses none. */
  lemma {:induction false} FromFirstByte(haystack: seq<Byte>, needle: seq<Byte>, first: nat, r: int)
    requires needle != [] && first <= |haystack| && needle[0] !in haystack[..first]
    requires IsFirst(haystack[first..], needle, r)
    ensures IsFirst(haystack, needle, if r < 0 then -1 else first + r)
  {
    var rest := haystack[first..];
    forall k: nat | k < first ensures !OccursAt(haystack, needle, k) {
      assert haystack[..first][k] == haystack[k + 0];
    }
    forall k: nat | first <= k ensures OccursAt(haystack, needle, k) == OccursAt(rest, needle, k - first) {
      if k + |needle| <= |haystack| {
        OccursSlice(haystack, needle, k);
        OccursSlice(rest, needle, k - first);
        assert rest[k - first..k - first + |needle|] == haystack[k..k + |needle|];
      }
    }
    if r >= 0 { assert OccursAt(haystack, needle, first + r) == OccursAt(rest, needle, r); }
  }

  /** The least index at which the needle occurs, or -1, whatever search its length selects. */
  method FindFirst(haystack: seq<Byte>, needle: seq<Byte>) returns (r: int)
    requires needle != [] && |haystack| < UINT32_RANGE && |needle| < UINT32_RANGE
    ensures IsFirst(haystack, needle, r)
  {
    var first := FindByte(haystack, needle[0]);
    var rest := haystack[first..];
    if first == |haystack| {
      assert IsFirst(rest, needle, -1);
      FromFirstByte(haystack, needle, first, -1);
      return -1;
    }
    var offset;
    match |needle| {
      case 1 =>
        offset := 0;
        assert OccursAt(rest, needle, 0);
      case 2 => offset := AlignedNeedleSizeFind(rest, needle);
      case 3 => offset := UnalignedNeedleSizeFind(rest, needle, 4);
      case 4 => offset := AlignedNeedleSizeFind(rest, needle);
      case 5 => offset := UnalignedNeedleSizeFind(rest, needle, 8);
      case 6 => offset := UnalignedNeedleSizeFind(rest, needle, 8);
      case 7 => offset := UnalignedNeedleSizeFind(rest, needle, 8);
      case 8 => offset := AlignedNeedleSizeFind(rest, needle);
      case _ => offset := GenericFind(rest, needle);
    }
    FromFirstByte(haystack, needle, first, offset);
    return if offset < 0 then -1 else first + offset;
  }
}

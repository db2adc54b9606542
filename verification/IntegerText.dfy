/**
  Printing 64-bit integers and reading them back
  (function/cast/functions/cast_string_non_nested_functions.h).
 */
module IntegerText {
  import opened Options

  const INT64_MAX := 0x7FFF_FFFF_FFFF_FFFF
  const INT64_MIN := -0x8000_0000_0000_0000

  predicate IsSpace(c: char) { c == ' ' || '\t' <= c <= '\r' }

  /** Blank, tab, line feed, vertical tab, form feed and carriage return. */
  const WHITE: set<char> := {' ', '\t', '\n', '\U{0B}', '\U{0C}', '\r'}

  lemma {:induction false} SpacesAreWhite(c: char)
    ensures IsSpace(c) <==> c in WHITE
  {
  }

  predicate IsDigit(c: char) { '0' <= c <= '9' }

  /** The first position from `i` on that holds no white space. */
  function SpaceEnd(text: string, i: nat): (j: nat)
    ensures i <= j && (i <= |text| ==> j <= |text|)
    ensures forall k :: i <= k < j ==> k < |text| && IsSpace(text[k])
    ensures j < |text| ==> !IsSpace(text[j])
    decreases |text| - i
  {
    if i < |text| && IsSpace(text[i]) then SpaceEnd(text, i + 1) else i
  }

  /** The position after the last character of `text[i..j]` that is no white space, or `i`. */
  function SpaceStart(text: string, i: nat, j: nat): (k: nat)
    requires i <= j <= |text|
    ensures i <= k <= j
    ensures forall m :: k <= m < j ==> IsSpace(text[m])
    ensures i < k ==> !IsSpace(text[k - 1])
  {
    if i < j && IsSpace(text[j - 1]) then SpaceStart(text, i, j - 1) else j
  }

  function Trim(text: string): string {
    var i := SpaceEnd(text, 0);
    text[i..SpaceStart(text, i, |text|)]
  }

  /** What is skipped at the front and at the back is white, and the character it stops at is not. */
  lemma {:induction false} SkipsExactlyWhite(text: string, i: nat, j: nat)
    requires i <= j <= |text|
    ensures var k := SpaceEnd(text, i);
            (forall m :: i <= m < k ==> text[m] in WHITE) && (k < |text| ==> text[k] !in WHITE)
    ensures var k := SpaceStart(text, i, j);
            (forall m :: k <= m < j ==> text[m] in WHITE) && (i < k ==> text[k - 1] !in WHITE)
  {
    forall m | 0 <= m < |text| ensures IsSpace(text[m]) <==> text[m] in WHITE { SpacesAreWhite(text[m]); }
  }

  method SkipWhitespace(text: string, start: nat) returns (i: nat)
    ensures i == SpaceEnd(text, start)
  {
    i := start;
    while i < |text| && IsSpace(text[i])
      invariant start <= i && SpaceEnd(text, i) == SpaceEnd(text, start)
    {
      i := i + 1;
    }
  }

  method TrimRightWhitespace(text: string, start: nat, end: nat) returns (j: nat)
    requires start <= end <= |text|
    ensures j == SpaceStart(text, start, end)
  {
    j := end;
    while start < j && IsSpace(text[j - 1])
      invariant start <= j <= end && SpaceStart(text, start, j) == SpaceStart(text, start, end)
    {
      j := j - 1;
    }
  }

  method TrimWhitespace(text: string) returns (r: string)
    ensures r == Trim(text)
  {
    var i := SkipWhitespace(text, 0);
    var j := TrimRightWhitespace(text, i, |text|);
    r := text[i..j];
  }

  predicate AllDigits(text: string) { forall i :: 0 <= i < |text| ==> IsDigit(text[i]) }

  /** The number a text of digits stands for. */
  function DigitsValue(text: string): (v: int)
    requires AllDigits(text)
    ensures v >= 0
  {
    if text == [] then 0 else DigitsValue(text[..|text| - 1]) * 10 + (text[|text| - 1] - '0') as int
  }

  lemma {:induction false} PrefixValue(text: string, i: nat)
    requires AllDigits(text) && i <= |text|
    ensures AllDigits(text[..i]) && DigitsValue(text[..i]) <= DigitsValue(text)
    decreases |text| - i
  {
    if i == |text| {
      assert text[..i] == text;
    } else {
      PrefixValue(text, i + 1);
      assert text[..i + 1][..i] == text[..i];
    }
  }

  /** C++ integer division, which drops the fraction. */
  function TruncatedTenth(n: int): int {
    if n >= 0 then n / 10 else -(-n / 10)
  }

  /** Reads the digits; each new digit is refused just before it would leave the 64-bit range. */
  method IntegerCastLoop(digits: string, negative: bool) returns (r: Option<int>)
    ensures r.Some? <==>
            && digits != [] && AllDigits(digits)
            && (if negative then -DigitsValue(digits) >= INT64_MIN else DigitsValue(digits) <= INT64_MAX)
    ensures r.Some? ==> r.value == if negative then -DigitsValue(digits) else DigitsValue(digits)
  {
    var result, pos := 0, 0;
    while pos < |digits|
      invariant 0 <= pos <= |digits| && AllDigits(digits[..pos])
      invariant result == if negative then -DigitsValue(digits[..pos]) else DigitsValue(digits[..pos])
      invariant INT64_MIN <= result <= INT64_MAX
    {
      if !IsDigit(digits[pos]) {
        return None;
      }
      var digit := (digits[pos] - '0') as nat;
      assert digits[..pos + 1][..pos] == digits[..pos];
      assert AllDigits(digits) ==> DigitsValue(digits[..pos + 1]) <= DigitsValue(digits) by {
        if AllDigits(digits) { PrefixValue(digits, pos + 1); }
      }
      if negative {
        if result < TruncatedTenth(INT64_MIN + digit) {
          return None;
        }
        result := result * 10 - digit;
      } else {
        if result > TruncatedTenth(INT64_MAX - digit) {
          return None;
        }
        result := result * 10 + digit;
      }
      pos := pos + 1;
    }
    assert digits[..pos] == digits;
    return if pos > 0 then Some(result) else None;
  }

  /** The texts that are read as integers: no leading zero, unless after a minus sign. */
  function ParseInt(text: string): Option<int> {
    var s := Trim(text);
    if s == [] then None
    else if s[0] == '-' then
      if |s| > 1 && AllDigits(s[1..]) && -DigitsValue(s[1..]) >= INT64_MIN then Some(-DigitsValue(s[1..])) else None
    else if |s| > 1 && s[0] == '0' then None
    else if AllDigits(s) && DigitsValue(s) <= INT64_MAX then Some(DigitsValue(s))
    else None
  }

  method TryIntegerCast(text: string) returns (r: Option<int>)
    ensures r == ParseInt(text)
  {
    var s := TrimWhitespace(text);
    if |s| == 0 {
      return None;
    }
    if s[0] == '-' {
      r := IntegerCastLoop(s[1..], true);
      return;
    }
    if |s| > 1 && s[0] == '0' {
      return None;
    }
    r := IntegerCastLoop(s, false);
  }

  /** Decimal notation. */
  function Digits(n: nat): (r: string)
    ensures r != [] && AllDigits(r)
    ensures DigitsValue(r) == n
    ensures (n > 0 ==> r[0] != '0') && (n < 10 ==> |r| == 1)
  {
    var last := ['0' + (n % 10) as char];
    if n < 10 then last
    else
      var front := Digits(n / 10);
      assert (front + last)[..|front|] == front;
      front + last
  }

  function PrintInt(n: int): string {
    if n < 0 then ['-'] + Digits(-n) else Digits(n)
  }

  lemma {:induction false} TrimTight(text: string)
    requires text != [] ==> !IsSpace(text[0]) && !IsSpace(text[|text| - 1])
    ensures Trim(text) == text
  {
  }

  /** Every 64-bit integer is read back from its printed text, the least one included. */
  lemma {:induction false} IntRoundTrip(n: int)
    requires INT64_MIN <= n <= INT64_MAX
    ensures ParseInt(PrintInt(n)) == Some(n)
  {
    var text := PrintInt(n);
    TrimTight(text);
    if n < 0 { assert text[1..] == Digits(-n); }
  }
}

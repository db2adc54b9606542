/**
  Arithmetic on decimals, which are integers scaled by a power of ten
  (function/vector_arithmetic_functions.cpp).
 */
module Decimals {
  import opened Options

  const DECIMAL_PRECISION_LIMIT: nat := 38

  function Pow10(n: nat): (r: int)
    ensures r > 0
  {
    if n == 0 then 1 else 10 * Pow10(n - 1)
  }

  lemma {:induction false} Pow10Grows(m: nat, n: nat)
    requires m <= n
    ensures Pow10(m) <= Pow10(n)
  {
    if m < n { Pow10Grows(m, n - 1); }
  }

  lemma {:induction false} Pow10Sum(m: nat, n: nat)
    ensures Pow10(m + n) == Pow10(m) * Pow10(n)
  {
    if m > 0 {
      Pow10Sum(m - 1, n);
      assert 10 * (Pow10(m - 1) * Pow10(n)) == 10 * Pow10(m - 1) * Pow10(n);
    }
  }

  /** A decimal of precision `p` has at most `p` digits. */
  predicate InRange(x: int, p: nat) {
    -Pow10(p) < x < Pow10(p)
  }

  /** Decimals are stored in 16, 32, 64 or 128 bits. */
  function StorageLimit(p: nat): int {
    if p <= 4 then 0x8000
    else if p <= 9 then 0x8000_0000
    else if p <= 18 then 0x8000_0000_0000_0000
    else 0x8000_0000_0000_0000_0000_0000_0000_0000
  }

  lemma {:induction false} FitsStorage(p: nat)
    requires p <= DECIMAL_PRECISION_LIMIT
    ensures Pow10(p) < StorageLimit(p)
  {
    if p <= 4 {
      Pow10Grows(p, 4);
      assert Pow10(4) == 10000;
    } else if p <= 9 {
      Pow10Grows(p, 9);
      assert Pow10(9) == 1000000000;
    } else if p <= 18 {
      Pow10Grows(p, 18);
      assert Pow10(18) == 1000000000000000000;
    } else {
      Pow10Grows(p, 38);
      Pow10Sum(19, 19);
      assert Pow10(19) == 10000000000000000000;
      assert Pow10(38) == 10000000000000000000 * 10000000000000000000;
    }
  }

  /** Every intermediate value has to fit the storage type of the result. */
  function Store(x: int, p: nat): (r: int)
    requires -StorageLimit(p) <= x < StorageLimit(p)
    ensures r == x
  {
    x
  }

  /** The sum, unless it does not fit the precision; then the addition fails. */
  function Add(left: int, right: int, p: nat): (r: Option<int>)
    requires p <= DECIMAL_PRECISION_LIMIT && InRange(left, p) && InRange(right, p)
    ensures r == if InRange(left + right, p) then Some(left + right) else None
  {
    FitsStorage(p);
    var pow := Pow10(p);
    if (right > 0 && Store(pow - right, p) <= left) || (right < 0 && Store(Store(-pow, p) - right, p) >= left) then None
    else Some(Store(left + right, p))
  }

  function Subtract(left: int, right: int, p: nat): (r: Option<int>)
    requires p <= DECIMAL_PRECISION_LIMIT && InRange(left, p) && InRange(right, p)
    ensures r == if InRange(left - right, p) then Some(left - right) else None
  {
    FitsStorage(p);
    var pow := Pow10(p);
    if (right > 0 && Store(Store(-pow, p) + right, p) >= left) || (right < 0 && Store(pow + right, p) <= left) then None
    else Some(Store(left - right, p))
  }

  /* ----- sums of decimals of different types ----- */

  function Max(a: nat, b: nat): nat { if a < b then b else a }

  function Min(a: nat, b: nat): nat { if a < b then a else b }

  /** Digits in front of and behind the decimal point that hold both operands. */
  function IntegerDigits(p1: nat, s1: nat, p2: nat, s2: nat): nat
    requires s1 <= p1 && s2 <= p2
  {
    Max(p1 - s1, p2 - s2)
  }

  /** Precision and scale of a sum or a difference. */
  function SumParams(p1: nat, s1: nat, p2: nat, s2: nat): (nat, nat)
    requires s1 <= p1 <= DECIMAL_PRECISION_LIMIT && s2 <= p2 <= DECIMAL_PRECISION_LIMIT
  {
    var digits := IntegerDigits(p1, s1, p2, s2);
    var p := Min(DECIMAL_PRECISION_LIMIT, Max(s1, s2) + digits + 1);
    var s := Min(p, Max(s1, s2));
    if digits < Min(DECIMAL_PRECISION_LIMIT, p) - s then (p, Min(p, DECIMAL_PRECISION_LIMIT) - digits) else (p, s)
  }

  /** The digit added for the carry goes to the scale, not to the integer part. */
  lemma {:induction false} SumParamsAre(p1: nat, s1: nat, p2: nat, s2: nat)
    requires s1 <= p1 <= DECIMAL_PRECISION_LIMIT && s2 <= p2 <= DECIMAL_PRECISION_LIMIT
    ensures var digits, scale := IntegerDigits(p1, s1, p2, s2), Max(s1, s2);
            SumParams(p1, s1, p2, s2) ==
            if digits + scale < DECIMAL_PRECISION_LIMIT then (digits + scale + 1, scale + 1) else (DECIMAL_PRECISION_LIMIT, scale)
  {
  }

  /** CastBetweenDecimal to a type with at least the scale. */
  function Rescale(x: int, s: nat, p': nat, s': nat): Option<int>
    requires s <= s'
  {
    var y := Pow10(s' - s) * x;
    if InRange(y, p') then Some(y) else None
  }

  /** Both operands are cast to the type of the sum and then added. */
  function AddDecimals(left: int, p1: nat, s1: nat, right: int, p2: nat, s2: nat): Option<int>
    requires s1 <= p1 <= DECIMAL_PRECISION_LIMIT && s2 <= p2 <= DECIMAL_PRECISION_LIMIT
  {
    SumParamsAre(p1, s1, p2, s2);
    var (p, s) := SumParams(p1, s1, p2, s2);
    var x, y := Rescale(left, s1, p, s), Rescale(right, s2, p, s);
    if x.None? || y.None? then None else Add(x.value, y.value, p)
  }

  lemma {:induction false} ScaledInRange(x: int, p: nat, k: nat, p': nat)
    requires InRange(x, p) && p + k <= p'
    ensures InRange(Pow10(k) * x, p')
  {
    Pow10Sum(k, p);
    Pow10Grows(k + p, p');
    var a, b := Pow10(k), Pow10(p);
    assert a * b - a * x == a * (b - x) && a * b + a * x == a * (b + x);
    AbsProduct(1, 1, a, b - x);
    AbsProduct(1, 1, a, b + x);
  }

  /**
    With room for a digit more, both operands always fit the type of the sum, and the sum is
    refused if and only if it has more integer digits than the operands.
   */
  lemma {:induction false} SumExactly(left: int, p1: nat, s1: nat, right: int, p2: nat, s2: nat)
    requires s1 <= p1 && s2 <= p2 && IntegerDigits(p1, s1, p2, s2) + Max(s1, s2) < DECIMAL_PRECISION_LIMIT
    requires InRange(left, p1) && InRange(right, p2)
    ensures var digits, s := IntegerDigits(p1, s1, p2, s2), Max(s1, s2) + 1;
            var sum := Pow10(s - s1) * left + Pow10(s - s2) * right;
            && p1 <= DECIMAL_PRECISION_LIMIT && p2 <= DECIMAL_PRECISION_LIMIT
            && AddDecimals(left, p1, s1, right, p2, s2) ==
               if -(Pow10(digits) * Pow10(s)) < sum < Pow10(digits) * Pow10(s) then Some(sum) else None
  {
    var digits, s := IntegerDigits(p1, s1, p2, s2), Max(s1, s2) + 1;
    SumParamsAre(p1, s1, p2, s2);
    ScaledInRange(left, p1, s - s1, digits + s);
    ScaledInRange(right, p2, s - s2, digits + s);
    Pow10Sum(digits, s);
  }

  /** Without room for one, the operands may not fit either. */
  lemma {:induction false} FullSumExactly(left: int, p1: nat, s1: nat, right: int, p2: nat, s2: nat)
    requires s1 <= p1 <= DECIMAL_PRECISION_LIMIT && s2 <= p2 <= DECIMAL_PRECISION_LIMIT
    requires IntegerDigits(p1, s1, p2, s2) + Max(s1, s2) >= DECIMAL_PRECISION_LIMIT
    ensures var s := Max(s1, s2);
            var x, y := Pow10(s - s1) * left, Pow10(s - s2) * right;
            AddDecimals(left, p1, s1, right, p2, s2) ==
            if InRange(x, DECIMAL_PRECISION_LIMIT) && InRange(y, DECIMAL_PRECISION_LIMIT) && InRange(x + y, DECIMAL_PRECISION_LIMIT)
            then Some(x + y) else None
  {
    SumParamsAre(p1, s1, p2, s2);
  }

  /** With the scale of the operands the digit would hold every carry. */
  lemma {:induction false} CarryFits(left: int, p1: nat, s1: nat, right: int, p2: nat, s2: nat)
    requires s1 <= p1 && s2 <= p2 && InRange(left, p1) && InRange(right, p2)
    ensures var digits, s := IntegerDigits(p1, s1, p2, s2), Max(s1, s2);
            InRange(Pow10(s - s1) * left + Pow10(s - s2) * right, digits + s + 1)
  {
    var digits, s := IntegerDigits(p1, s1, p2, s2), Max(s1, s2);
    ScaledInRange(left, p1, s - s1, digits + s);
    ScaledInRange(right, p2, s - s2, digits + s);
  }

  /** 9 + 9 in one digit each: 18 has two digits, and the type of the sum has two, but one is behind the point. */
  lemma {:induction false} NinePlusNine()
    ensures SumParams(1, 0, 1, 0) == (2, 1) && AddDecimals(9, 1, 0, 9, 1, 0) == None && InRange(18, 2)
  {
    assert Pow10(1) == 10 && Pow10(2) == 100;
    SumExactly(9, 1, 0, 9, 1, 0);
  }

  /** Precision and scale of a product; too many digits are refused beforehand. */
  function MultiplyParams(p1: nat, p2: nat, s1: nat, s2: nat): Option<(nat, nat)> {
    if p1 + p2 + 1 > DECIMAL_PRECISION_LIMIT then None else Some((p1 + p2 + 1, s1 + s2))
  }

  lemma {:induction false} ProductInRange(left: int, right: int, p1: nat, p2: nat)
    requires InRange(left, p1) && InRange(right, p2)
    ensures InRange(left * right, p1 + p2 + 1)
  {
    Pow10Sum(p1, p2);
    ProductBound(left, right, Pow10(p1), Pow10(p2));
  }

  lemma {:induction false} ProductBound(x: int, y: int, a: int, b: int)
    requires -a < x < a && -b < y < b
    ensures -(a * b) <= x * y <= a * b
  {
    AbsProduct(if x < 0 then -x else x, if y < 0 then -y else y, a, b);
    assert (-x) * (-y) == x * y && (-x) * y == -(x * y) && x * (-y) == -(x * y);
  }

  lemma {:induction false} AbsProduct(x: int, y: int, a: int, b: int)
    requires 0 <= x <= a && 0 <= y <= b
    ensures 0 <= x * y <= a * b
  {
    assert x * y <= a * y by { assert 0 <= (a - x) * y == a * y - x * y; }
    assert a * y <= a * b by { assert 0 <= a * (b - y) == a * b - a * y; }
  }

  /** The product of operands that fit their types is exact; its check for overflow never fails. */
  function Multiply(left: int, right: int, p1: nat, p2: nat): (r: Option<int>)
    requires MultiplyParams(p1, p2, 0, 0).Some? && InRange(left, p1) && InRange(right, p2)
    ensures r == Some(left * right)
  {
    var p := p1 + p2 + 1;
    FitsStorage(p);
    ProductInRange(left, right, p1, p2);
    var product := Store(left * right, p);
    if product <= Store(-Pow10(p), p) || product >= Pow10(p) then None else Some(product)
  }

  /* ----- the numbers decimals stand for ----- */

  function Value(x: int, scale: nat): real { x as real / Pow10(scale) as real }

  lemma {:induction false} RealProduct(a: int, b: int)
    ensures (a * b) as real == a as real * b as real
  {
  }

  lemma {:induction false} ScaledBy(v: real, x: int, scale: nat)
    ensures v == Value(x, scale) <==> v * Pow10(scale) as real == x as real
  {
  }

  /** The product of two decimals, at the scale of its type, stands for the product of their values. */
  lemma {:induction false} MultiplyValue(left: int, p1: nat, s1: nat, right: int, p2: nat, s2: nat)
    requires MultiplyParams(p1, p2, s1, s2).Some? && InRange(left, p1) && InRange(right, p2)
    ensures var (p, s) := MultiplyParams(p1, p2, s1, s2).value;
            var product := Multiply(left, right, p1, p2);
            && product.Some? && InRange(product.value, p)
            && Value(product.value, s) == Value(left, s1) * Value(right, s2)
  {
    ProductInRange(left, right, p1, p2);
    ProductOfValues(left, s1, right, s2);
  }

  lemma {:induction false} ProductOfValues(x: int, s1: nat, y: int, s2: nat)
    ensures Value(x * y, s1 + s2) == Value(x, s1) * Value(y, s2)
  {
    Pow10Sum(s1, s2);
    IntQuotients(x, y, Pow10(s1), Pow10(s2), Pow10(s1 + s2));
  }

  lemma {:induction false} IntQuotients(x: int, y: int, a: int, b: int, c: int)
    requires a > 0 && b > 0 && c > 0 && c == a * b
    ensures (x * y) as real / c as real == (x as real / a as real) * (y as real / b as real)
  {
    RealProduct(a, b);
    RealProduct(x, y);
    Quotients(x as real, y as real, a as real, b as real, x as real / a as real, y as real / b as real);
  }

  lemma {:induction false} Quotients(x: real, y: real, a: real, b: real, v: real, w: real)
    requires a > 0.0 && b > 0.0 && x == v * a && y == w * b
    ensures a * b != 0.0 && x * y / (a * b) == v * w
  {
    Interchange(v, w, a, b);
    Divided(x * y, a * b, v * w);
  }

  lemma {:induction false} Divided(x: real, a: real, v: real)
    requires a != 0.0 && x == v * a
    ensures x / a == v
  {
  }

  lemma {:induction false} Interchange(v: real, w: real, a: real, b: real)
    ensures (v * a) * (w * b) == v * w * (a * b)
  {
  }

  /** Products have the digits of both operands and one more, and are refused exactly when these are above the limit. */
  lemma {:induction false} MultiplyRefused(p1: nat, s1: nat, p2: nat, s2: nat)
    ensures MultiplyParams(p1, p2, s1, s2).None? <==> p1 + p2 >= 38
    ensures MultiplyParams(p1, p2, s1, s2).Some? ==> MultiplyParams(p1, p2, s1, s2).value.0 == p1 + p2 + 1 <= 38
  {
  }

  lemma {:induction false} RescaledValue(x: int, s: nat, s': nat)
    requires s <= s'
    ensures Value(Pow10(s' - s) * x, s') == Value(x, s)
  {
    var v, a, b := Value(x, s), Pow10(s) as real, Pow10(s' - s) as real;
    ScaledBy(v, x, s);
    Pow10Sum(s' - s, s);
    RealProduct(Pow10(s' - s), Pow10(s));
    RealProduct(Pow10(s' - s), x);
    assert v * (b * a) == b * (v * a);
    ScaledBy(v, Pow10(s' - s) * x, s');
  }

  lemma {:induction false} SumOfValues(x: int, y: int, s: nat)
    ensures Value(x + y, s) == Value(x, s) + Value(y, s)
  {
    var v, w, a := Value(x, s), Value(y, s), Pow10(s) as real;
    ScaledBy(v, x, s);
    ScaledBy(w, y, s);
    assert (v + w) * a == v * a + w * a;
    ScaledBy(v + w, x + y, s);
  }

  /** A sum that is not refused, at the scale of its type, stands for the sum of the values. */
  lemma {:induction false} SumValue(left: int, p1: nat, s1: nat, right: int, p2: nat, s2: nat)
    requires s1 <= p1 <= DECIMAL_PRECISION_LIMIT && s2 <= p2 <= DECIMAL_PRECISION_LIMIT
    ensures var s := SumParams(p1, s1, p2, s2).1;
            var sum := AddDecimals(left, p1, s1, right, p2, s2);
            sum.Some? ==> Value(sum.value, s) == Value(left, s1) + Value(right, s2)
  {
    SumParamsAre(p1, s1, p2, s2);
    var s := SumParams(p1, s1, p2, s2).1;
    RescaledValue(left, s1, s);
    RescaledValue(right, s2, s);
    SumOfValues(Pow10(s - s1) * left, Pow10(s - s2) * right, s);
  }

  /* C++ division and remainder, which round towards zero */

  function Quotient(a: int, b: int): int
    requires b > 0
  {
    if a >= 0 then a / b else -(-a / b)
  }

  function Remainder(a: int, b: int): int
    requires b > 0
  {
    if a >= 0 then a % b else -(-a % b)
  }

  lemma {:induction false} Truncated(a: int, b: int)
    requires b > 0
    ensures a == Quotient(a, b) * b + Remainder(a, b)
    ensures -b < Remainder(a, b) < b && (a >= 0 ==> Remainder(a, b) >= 0) && (a <= 0 ==> Remainder(a, b) <= 0)
  {
    if a >= 0 {
      assert a == a / b * b + a % b;
    } else {
      assert -a == -a / b * b + -a % b;
    }
  }

  lemma {:induction false} Unique(x: int, b: int, q: int)
    requires b > 0 && x == q * b && q >= 0
    ensures x >= 0 && x / b == q
  {
    AbsProduct(0, 0, q, b);
    var d := q - x / b;
    assert x == x / b * b + x % b;
    assert d * b == x % b;
    assert (-d) * b == -(d * b);
    if d >= 1 {
      AbsProduct(1, b, d, b);
    } else if d <= -1 {
      AbsProduct(1, b, -d, b);
    }
  }

  lemma {:induction false} ExactQuotient(q: int, b: int)
    requires b > 0
    ensures Quotient(q * b, b) == q
  {
    if q >= 0 {
      Unique(q * b, b, q);
    } else {
      assert (-q) * b == -(q * b);
      Unique((-q) * b, b, -q);
    }
  }

  /** A multiple of `pow` above -(m + 1) * pow is at least -m * pow. */
  lemma {:induction false} MultipleBound(k: int, pow: int, m: int)
    requires pow > 0 && k * pow > -(m * pow) - pow
    ensures k * pow >= -(m * pow)
  {
    assert (-m - 1 - k) * pow == -(m * pow) - pow - k * pow;
    if k < -m { AbsProduct(0, 0, -m - 1 - k, pow); }
  }

  function Below(input: int, pow: int): int
    requires pow > 0
  {
    var remainder := Remainder(input, pow);
    if input < 0 then input - (if remainder == 0 then 0 else pow + remainder) else input - remainder
  }

  function Above(input: int, pow: int): int
    requires pow > 0
  {
    var remainder := Remainder(input, pow);
    if input < 0 then input - remainder else input + (if remainder == 0 then 0 else pow - remainder)
  }

  /** The nearest multiple of `pow` below and above. */
  lemma {:induction false} Nearest(input: int, pow: int)
    requires pow > 0
    ensures Below(input, pow) <= input < Below(input, pow) + pow
    ensures Quotient(Below(input, pow), pow) * pow == Below(input, pow)
    ensures Above(input, pow) - pow < input <= Above(input, pow)
    ensures Quotient(Above(input, pow), pow) * pow == Above(input, pow)
  {
    Truncated(input, pow);
    var q := Quotient(input, pow);
    assert (q - 1) * pow == q * pow - pow && (q + 1) * pow == q * pow + pow;
    ExactQuotient(q - 1, pow);
    ExactQuotient(q, pow);
    ExactQuotient(q + 1, pow);
  }

  /** Rounding a decimal of precision `p` to an integer takes it at most to 10^p. */
  lemma {:induction false} RoundedBound(input: int, p: nat, scale: nat)
    requires scale <= p && InRange(input, p)
    ensures -Pow10(p) <= Below(input, Pow10(scale)) && Above(input, Pow10(scale)) <= Pow10(p)
  {
    var pow, m := Pow10(scale), Pow10(p - scale);
    Pow10Sum(p - scale, scale);
    Nearest(input, pow);
    BoundBelow(Below(input, pow), Quotient(Below(input, pow), pow), pow, m, Pow10(p));
    BoundAbove(Above(input, pow), Quotient(Above(input, pow), pow), pow, m, Pow10(p));
  }

  lemma {:induction false} BoundBelow(x: int, k: int, pow: int, m: int, bound: int)
    requires pow > 0 && x == k * pow && bound == m * pow && x > -bound - pow
    ensures x >= -bound
  {
    MultipleBound(k, pow, m);
  }

  lemma {:induction false} BoundAbove(x: int, k: int, pow: int, m: int, bound: int)
    requires pow > 0 && x == k * pow && bound == m * pow && x < bound + pow
    ensures x <= bound
  {
    assert (-k) * pow == -(k * pow);
    MultipleBound(-k, pow, m);
  }

  /** So the result is in range for its own type, of the same precision and without a scale. */
  lemma {:induction false} RoundedInRange(r: int, p: nat, scale: nat)
    requires scale <= p && -Pow10(p) <= r * Pow10(scale) <= Pow10(p) && (scale == 0 ==> InRange(r, p))
    ensures InRange(r, p)
  {
    if scale > 0 {
      var pow, m := Pow10(scale), Pow10(p - scale);
      Pow10Sum(p - scale, scale);
      Pow10Grows(p - scale, p - 1);
      assert (-r) * pow == -(r * pow);
      Cancel(r, m, pow);
      Cancel(-r, m, pow);
    }
  }

  lemma {:induction false} Cancel(a: int, b: int, pow: int)
    requires pow > 0 && a * pow <= b * pow
    ensures a <= b
  {
    assert (a - b) * pow == a * pow - b * pow;
    if a > b { AbsProduct(1, pow, a - b, pow); }
  }

  /** The greatest integer that is not above the decimal, also for negative ones. */
  function Floor(input: int, p: nat, scale: nat): (r: int)
    requires scale <= p <= DECIMAL_PRECISION_LIMIT && InRange(input, p)
    ensures r * Pow10(scale) <= input < r * Pow10(scale) + Pow10(scale)
    ensures InRange(r, p)
  {
    FitsStorage(p);
    Pow10Grows(scale, p);
    RoundedBound(input, p, scale);
    Nearest(input, Pow10(scale));
    Truncated(input, Pow10(scale));
    RoundedInRange(Quotient(Below(input, Pow10(scale)), Pow10(scale)), p, scale);
    var pow := Pow10(scale);
    var remainder := Remainder(input, pow);
    var result := if input < 0 then Store(input - (if remainder == 0 then 0 else Store(pow + remainder, p)), p)
                  else Store(input - remainder, p);
    Quotient(result, pow)
  }

  /** The least integer that is not below the decimal. */
  function Ceil(input: int, p: nat, scale: nat): (r: int)
    requires scale <= p <= DECIMAL_PRECISION_LIMIT && InRange(input, p)
    ensures r * Pow10(scale) - Pow10(scale) < input <= r * Pow10(scale)
    ensures InRange(r, p)
  {
    FitsStorage(p);
    Pow10Grows(scale, p);
    RoundedBound(input, p, scale);
    Nearest(input, Pow10(scale));
    Truncated(input, Pow10(scale));
    RoundedInRange(Quotient(Above(input, Pow10(scale)), Pow10(scale)), p, scale);
    var pow := Pow10(scale);
    var remainder := Remainder(input, pow);
    var result := if input < 0 then Store(input - remainder, p)
                  else Store(input + (if remainder == 0 then 0 else Store(pow - remainder, p)), p);
    Quotient(result, pow)
  }
}

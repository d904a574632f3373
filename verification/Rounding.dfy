/** Banker's rounding of `amount * numer / denom`. */
module Rounding {
  import opened Wrappers

  datatype RoundingError = BadDenominator | NegativeArgument

  /** Rounds the rational `num / den` half to even. */
  function HalfEven(num: int, den: int): int
    requires den > 0
  {
    RoundParts(num / den, num % den, den)
  }

  function RoundParts(quotient: int, remainder: int, den: int): int {
    if remainder * 2 < den then quotient
    else if remainder * 2 > den then quotient + 1
    else if quotient % 2 == 0 then quotient else quotient + 1
  }

  function RoundHalfEven(amount: int, numer: int, denom: int): Result<int, RoundingError> {
    if denom <= 0 then Err(BadDenominator)
    else if amount < 0 || numer < 0 then Err(NegativeArgument)
    else Ok(HalfEven(amount * numer, denom))
  }

  /** Which fault a refused rounding reports. */
  lemma {:induction false} RoundingRefusals(amount: int, numer: int, denom: int)
    ensures var r := RoundHalfEven(amount, numer, denom);
            && (r == Err(BadDenominator) <==> denom < 1)
            && (r == Err(NegativeArgument) <==> denom >= 1 && (amount <= -1 || numer <= -1))
  {
  }

  ghost function Abs(x: int): nat { if x < 0 then -x else x }

  /** `r` is a nearest integer to `num / den`, and even when two are equally near. */
  ghost predicate IsNearestEven(num: int, den: int, r: int)
    requires den > 0
  {
    && 2 * Abs(r * den - num) <= den
    && (2 * Abs(r * den - num) == den ==> r % 2 == 0)
  }

  lemma {:induction false} DivModOf(num: int, den: int)
    requires den > 0
    ensures num == (num / den) * den + num % den && 0 <= num % den < den
  {
  }

  lemma {:induction false} HalfEvenIsNearest(num: int, den: int)
    requires den > 0
    ensures IsNearestEven(num, den, HalfEven(num, den))
  {
    DivModOf(num, den);
    var q := num / den;
    assert (q + 1) * den == q * den + den;
  }

  lemma {:induction false} NearestBounds(num: int, den: int, r: int)
    requires den > 0 && IsNearestEven(num, den, r)
    ensures (2 * r - 1) * den <= 2 * num <= (2 * r + 1) * den
    ensures (2 * r - 1) * den == 2 * num ==> r % 2 == 0
    ensures (2 * r + 1) * den == 2 * num ==> r % 2 == 0
  {
    assert (2 * r - 1) * den == 2 * (r * den) - den;
    assert (2 * r + 1) * den == 2 * (r * den) + den;
  }

  lemma {:induction false} CrossMultiply(a: int, num: int, den: int, b: int, num': int, den': int)
    requires den > 0 && den' > 0
    requires a * den <= 2 * num && 2 * num' <= b * den'
    requires num * den' <= num' * den
    ensures a <= b
    ensures a == b ==> a * den == 2 * num && 2 * num' == b * den'
  {
    MulLeq(a * den, 2 * num, den');
    MulLeq(2 * num', b * den', den);
    Assoc(a, den, den');
    Assoc(b, den', den);
    Assoc(2, num, den');
    Assoc(2, num', den);
    assert den * den' == den' * den;
    MulCancel(a, b, den * den');
    if a == b {
      MulStrict(a * den, 2 * num, den');
      MulStrict(2 * num', b * den', den);
    }
  }

  /** A smaller rational never has a larger nearest integer. */
  lemma {:induction false} NearestMonotone(num: int, den: int, r: int, num': int, den': int, r': int)
    requires den > 0 && den' > 0
    requires IsNearestEven(num, den, r) && IsNearestEven(num', den', r')
    requires num * den' <= num' * den
    ensures r <= r'
  {
    NearestBounds(num, den, r);
    NearestBounds(num', den', r');
    CrossMultiply(2 * r - 1, num, den, 2 * r' + 1, num', den');
  }

  lemma {:induction false} Assoc(k: int, a: int, b: int)
    ensures (k * a) * b == k * (a * b)
  {
  }

  lemma {:induction false} MulLeq(a: int, b: int, c: int)
    requires a <= b && c > 0
    ensures a * c <= b * c
  {
  }

  lemma {:induction false} MulStrict(a: int, b: int, c: int)
    requires a <= b && c > 0
    ensures a * c == b * c ==> a == b
  {
  }

  lemma {:induction false} MulCancel(a: int, b: int, c: int)
    requires a * c <= b * c && c > 0
    ensures a <= b
  {
  }

  /** The rounding is the one integer that is nearest, ties to even. */
  lemma {:induction false} HalfEvenUnique(num: int, den: int, r: int)
    requires den > 0
    ensures IsNearestEven(num, den, r) <==> r == HalfEven(num, den)
  {
    HalfEvenIsNearest(num, den);
    if IsNearestEven(num, den, r) {
      NearestMonotone(num, den, r, num, den, HalfEven(num, den));
      NearestMonotone(num, den, HalfEven(num, den), num, den, r);
    }
  }

  /** Rounding depends only on the value of the ratio, and is monotone in it. */
  lemma {:induction false} RoundingMonotone(amount: int, numer: int, denom: int, amount': int, numer': int, denom': int)
    requires denom > 0 && denom' > 0 && amount >= 0 && amount' >= 0 && numer >= 0 && numer' >= 0
    requires (amount * numer) * denom' <= (amount' * numer') * denom
    ensures RoundHalfEven(amount, numer, denom).Ok? && RoundHalfEven(amount', numer', denom').Ok?
    ensures RoundHalfEven(amount, numer, denom).value <= RoundHalfEven(amount', numer', denom').value
  {
    var num, num' := amount * numer, amount' * numer';
    HalfEvenIsNearest(num, denom);
    HalfEvenIsNearest(num', denom');
    NearestMonotone(num, denom, HalfEven(num, denom), num', denom', HalfEven(num', denom'));
  }

  lemma {:induction false} RoundingScales(amount: int, numer: int, denom: int, k: int)
    requires denom > 0 && amount >= 0 && numer >= 0 && k > 0
    ensures denom * k > 0 && numer * k >= 0
    ensures RoundHalfEven(amount, numer * k, denom * k) == RoundHalfEven(amount, numer, denom)
  {
    assert denom * k > 0 && numer * k >= 0;
    assert (amount * (numer * k)) * denom == (amount * numer) * (denom * k) by {
      Assoc(amount, numer, k);
      Assoc(amount * numer, k, denom);
    }
    RoundingMonotone(amount, numer * k, denom * k, amount, numer, denom);
    RoundingMonotone(amount, numer, denom, amount, numer * k, denom * k);
  }

  ghost predicate Tie(num: int, den: int)
    requires den > 0
  {
    2 * (num % den) == den
  }

  /** A refund and its complement sum to the amount, except on a tie of an odd amount, where they miss by one cent. */
  lemma {:induction false} ComplementaryRefunds(amount: int, numer: int, denom: int)
    requires amount >= 0 && 0 <= numer <= denom && denom > 0
    ensures var there, back := HalfEven(amount * numer, denom), HalfEven(amount * (denom - numer), denom);
            && (there + back == amount <==> !(Tie(amount * numer, denom) && amount % 2 == 1))
            && Abs(there + back - amount) <= 1
  {
    var num, num' := amount * numer, amount * (denom - numer);
    assert num' == amount * denom - num;
    DivModOf(num, denom);
    var q, r := num / denom, num % denom;
    var q', r' := if r == 0 then amount - q else amount - q - 1, if r == 0 then 0 else denom - r;
    ComplementQuotient(amount, denom, q, r, q', r');
    DivUnique(num', denom, q', r');
    ComplementParity(amount, denom, q, r, q', r');
  }

  lemma {:induction false} ComplementQuotient(amount: int, denom: int, q: int, r: int, q': int, r': int)
    requires q' == if r == 0 then amount - q else amount - q - 1
    requires r' == if r == 0 then 0 else denom - r
    ensures q' * denom + r' == amount * denom - (q * denom + r)
  {
    assert (amount - q) * denom == amount * denom - q * denom;
    assert (amount - q - 1) * denom == (amount - q) * denom - denom;
  }

  lemma {:induction false} ComplementParity(amount: int, denom: int, q: int, r: int, q': int, r': int)
    requires denom > 0 && 0 <= r < denom
    requires q' == if r == 0 then amount - q else amount - q - 1
    requires r' == if r == 0 then 0 else denom - r
    ensures var there, back := RoundParts(q, r, denom), RoundParts(q', r', denom);
            && (there + back == amount <==> !(2 * r == denom && amount % 2 == 1))
            && Abs(there + back - amount) <= 1
  {
  }

  lemma {:induction false} DivUnique(num: int, den: int, q: int, r: int)
    requires den > 0 && num == q * den + r && 0 <= r < den
    ensures num / den == q && num % den == r
  {
    DivModOf(num, den);
    var q', r' := num / den, num % den;
    assert (q - q') * den == r' - r;
    if q > q' {
      MulLeq(1, q - q', den);
    } else if q < q' {
      MulLeq(q - q', -1, den);
    }
  }

  /** The rounding error is at most half a unit, as a real number. */
  lemma {:induction false} HalfEvenWithinHalf(num: int, den: int)
    requires den > 0
    ensures -0.5 <= HalfEven(num, den) as real - num as real / den as real <= 0.5
  {
    HalfEvenIsNearest(num, den);
    var r := HalfEven(num, den);
    ToReal(r * den - num, den);
    ProductToReal(r, den);
    RatioError(r as real, num as real, den as real);
  }

  lemma {:induction false} ToReal(e: int, den: int)
    requires -den <= 2 * e <= den
    ensures -(den as real) <= (e as real) + (e as real) <= den as real
  {
  }

  lemma {:induction false} ProductToReal(r: int, den: int)
    ensures (r * den) as real == r as real * den as real
  {
  }

  lemma {:induction false} RatioError(r: real, n: real, d: real)
    requires d > 0.0 && -d <= (r * d - n) + (r * d - n) <= d
    ensures -0.5 <= r - n / d <= 0.5
  {
    var x := n / d;
    assert x * d == n;
    BelowOne(r - x + r - x, d, (r * d - n) + (r * d - n));
    BelowOne(x - r + x - r, d, -((r * d - n) + (r * d - n)));
  }

  lemma {:induction false} BelowOne(e: real, d: real, p: real)
    requires d > 0.0 && e * d == p && p <= d
    ensures e <= 1.0
  {
    if e > 1.0 {
      RealPositive(e - 1.0, d, p - d);
    }
  }

  lemma {:induction false} RealPositive(a: real, b: real, p: real)
    requires a > 0.0 && b > 0.0 && a * b == p
    ensures p > 0.0
  {
  }
}

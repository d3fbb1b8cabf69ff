/** 128-bit arithmetic: checked, reporting the given error when the exact result does not fit, or wrapping. */
module Checked {
  import opened Wrappers

  const I128_MAX: int := 0x7FFF_FFFF_FFFF_FFFF_FFFF_FFFF_FFFF_FFFF
  const I128_MIN: int := -0x8000_0000_0000_0000_0000_0000_0000_0000

  predicate FitsI128(x: int) {
    I128_MIN <= x <= I128_MAX
  }

  type i128 = x: int | I128_MIN <= x <= I128_MAX

  const TWO_128: int := 0x1_0000_0000_0000_0000_0000_0000_0000_0000

  /** Unchecked 128-bit arithmetic of a release build keeps the low 128 bits of the exact result. */
  function WrapI128(x: int): (r: i128)
    ensures FitsI128(x) ==> r == x
  {
    (x - I128_MIN) % TWO_128 + I128_MIN
  }

  function CheckedAdd<E>(a: int, b: int, e: E): Result<int, E> {
    if FitsI128(a + b) then Ok(a + b) else Err(e)
  }

  function CheckedSub<E>(a: int, b: int, e: E): Result<int, E> {
    if FitsI128(a - b) then Ok(a - b) else Err(e)
  }

  function CheckedMul<E>(a: int, b: int, e: E): Result<int, E> {
    if FitsI128(a * b) then Ok(a * b) else Err(e)
  }

  /** Division of the host language: it truncates toward zero. */
  function TruncDiv(a: int, b: int): int
    requires b != 0
  {
    if a >= 0 then a / b
    else if b > 0 then -(-a / b)
    else -a / -b
  }

  function CheckedDiv<E>(a: int, b: int, e: E): Result<int, E> {
    if b == 0 then Err(e)
    else if FitsI128(TruncDiv(a, b)) then Ok(TruncDiv(a, b)) else Err(e)
  }

  function Abs(x: int): nat {
    if x < 0 then -x else x
  }

  /** The quotient of a non-negative number is the floor, bracketed by the divisor. */
  lemma FloorBracket(a: int, b: int)
    requires 0 <= a && 0 < b
    ensures TruncDiv(a, b) == a / b
    ensures 0 <= (a / b) * b <= a < (a / b) * b + b
    ensures 0 <= a / b
  {
    assert a == b * (a / b) + a % b;
  }

  /** An integer bounded by a quotient is bounded by the product, and the other way round. */
  lemma FloorIff(x: int, a: int, b: int)
    requires 0 < b
    ensures x <= a / b <==> x * b <= a
  {
    var q := a / b;
    assert a == q * b + a % b;
    if x <= q {
      assert x * b <= q * b;
    } else {
      assert x * b >= (q + 1) * b == q * b + b;
    }
  }

  lemma MulMono(x: int, y: int, k: int)
    requires x <= y && 0 <= k
    ensures x * k <= y * k
  {
  }

  lemma AtLeastOnce(d: int, k: int)
    requires 0 < k
    ensures d >= 1 ==> d * k >= k
  {
    if d >= 1 {
      MulMono(1, d, k);
    }
  }

  /** Less than one factor apart after multiplying means not above before. */
  lemma MulCancel(x: int, y: int, k: int)
    requires 0 < k && x * k < y * k + k
    ensures x <= y
  {
    AtLeastOnce(x - y, k);
    assert (x - y) * k == x * k - y * k;
  }

  /** Wrapping is a matter of whole multiples of 2^128. */
  lemma WrapShift(x: int) returns (k: int)
    ensures x == WrapI128(x) + k * TWO_128
    ensures k == 0 <==> FitsI128(x)
    ensures k > 0 <==> x > I128_MAX
  {
    k := (x - I128_MIN) / TWO_128;
  }

  /** Multiples of 2^128 do not matter to it. */
  lemma WrapMultiple(x: int, k: int)
    ensures WrapI128(x + k * TWO_128) == WrapI128(x)
  {
    var i := WrapShift(x);
    var j := WrapShift(x + k * TWO_128);
    assert WrapI128(x + k * TWO_128) - WrapI128(x) == (k + i - j) * TWO_128;
  }

  /** A sum may be wrapped at every step or once at the end. */
  lemma WrapSum(x: int, y: int)
    ensures WrapI128(WrapI128(x) + y) == WrapI128(x + y)
    ensures WrapI128(x + WrapI128(y)) == WrapI128(x + y)
  {
    var i := WrapShift(x);
    var j := WrapShift(y);
    WrapMultiple(x + y, -i);
    WrapMultiple(x + y, -j);
  }
}

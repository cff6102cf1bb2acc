/** Go's 64-bit integers, and division that truncates toward zero. */
module Integers {

  const INT64_LIMIT := 0x8000_0000_0000_0000

  predicate FitsInt64(x: int)
  {
    -INT64_LIMIT <= x < INT64_LIMIT
  }

  /** The 64-bit integer that an arithmetic result wraps around to. */
  function WrapInt64(x: int): int
  {
    (x + INT64_LIMIT) % (2 * INT64_LIMIT) - INT64_LIMIT
  }

  lemma NoWrap(x: int)
    requires FitsInt64(x)
    ensures WrapInt64(x) == x
  {
  }

  type Positive = x: int | x > 0 witness 1

  /** Quotient and remainder: the quotient is truncated toward zero, the remainder has the sign of `n`. */
  function QuoRem(n: int, d: Positive): (r: (int, int))
    ensures n == r.0 * d + r.1 && d + r.1 > 0 && r.1 < d && (n >= 0 ==> r.1 >= 0) && (n <= 0 ==> r.1 <= 0)
  {
    if n >= 0 then (n / d, n % d) else (-((-n) / d), -((-n) % d))
  }
}

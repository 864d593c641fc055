/** C++ integer division and remainder by a positive divisor, which truncate toward zero, and `abs`. */
module CArith {
  function Abs(x: int): (r: nat)
    ensures r == x || r == -x
  {
    if x < 0 then -x else x
  }

  /** `a / b` in C++ for `b > 0`: the quotient rounded toward zero. */
  function TruncDiv(a: int, b: int): int
    requires b > 0
  {
    if a >= 0 then a / b else -((-a) / b)
  }

  /**
   * `a % b` in C++ for `b > 0`: the remainder that completes `(a / b) * b + a % b == a` and takes
   * the sign of `a`; these two facts determine truncating division.
   */
  function TruncMod(a: int, b: int): (r: int)
    requires b > 0
    ensures TruncDiv(a, b) * b + r == a
    ensures -b < r < b
    ensures a >= 0 ==> 0 <= r
    ensures a <= 0 ==> r <= 0
  {
    if a >= 0 then a % b else -((-a) % b)
  }
}

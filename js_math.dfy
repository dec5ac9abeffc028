/** JavaScript's integer arithmetic where it differs from Dafny's Euclidean `/` and `%`. */
module JsMath {
  /**
   * `a % b` for `b > 0`: the remainder takes the sign of the dividend, so it
   * agrees with the Euclidean remainder on non-negative `a` only.
   */
  function Rem(a: int, b: int): (r: int)
    requires b > 0
    ensures -b < r < b
    ensures a >= 0 ==> r == a % b
    ensures a < 0 ==> r <= 0 && -r == (-a) % b
  {
    if a >= 0 then a % b else -((-a) % b)
  }

  /** `Math.round(a / b)` for `b > 0`: the nearest integer, halves rounded up. */
  function RoundDiv(a: int, b: int): (q: int)
    requires b > 0
    ensures q * b - b / 2 <= a
    ensures b % 2 == 0 ==> a < q * b + b / 2
  {
    (a + b / 2) / b
  }
}

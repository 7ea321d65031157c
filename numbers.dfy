/** The arithmetic of JavaScript numbers that the model relies on, written out
    for integers: `Math.floor(a / b)`, the truncating `%` operator and
    `Math.round`. Dafny's own `/` and `%` are Euclidean, so for a positive
    divisor `/` already is the floor. */
module JsNumbers {

  /** `Math.floor(a / b)` for a positive divisor. */
  function FloorDiv(a: int, b: int): (q: int)
    requires b > 0
    ensures q * b <= a < q * b + b
  {
    a / b
  }

  /** JavaScript's `a % b` for a positive divisor: the remainder takes the sign
      of the dividend (truncation toward zero), unlike Dafny's `%`. */
  function Rem(a: int, b: int): (r: int)
    requires b > 0
    ensures a >= 0 ==> 0 <= r < b && r == a - FloorDiv(a, b) * b
    ensures a < 0 ==> -b < r <= 0 && r == a + FloorDiv(-a, b) * b
  {
    if a >= 0 then a % b else -((-a) % b)
  }

  /** `Math.round(x)`: the nearest integer, halves rounded up. */
  function Round(x: real): (n: int)
    ensures x - 0.5 < n as real <= x + 0.5
  {
    (x + 0.5).Floor
  }

  /** `Math.max(a, b)` over reals. */
  function MaxReal(a: real, b: real): (m: real)
    ensures m >= a && m >= b && (m == a || m == b)
  {
    if a >= b then a else b
  }

  /** Rounding a value that is already a whole number gives that number back. */
  lemma RoundWhole(n: int)
    ensures Round(n as real) == n
  {
  }
}

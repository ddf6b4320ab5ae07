/**
 * Python's integer operations as the labelling code uses them: `int()` on a
 * float, `math.ceil` of a true division, and `^` on unbounded two's-complement
 * integers. Dafny's `/` and `%` are Euclidean, so each is written out.
 */
module PyInt {

  function Abs(x: int): nat { if x < 0 then -x else x }

  /** `int(r)` for a float `r`: truncation toward zero. */
  function Trunc(r: real): (t: int)
    ensures r >= 0.0 ==> t as real <= r < t as real + 1.0
    ensures r < 0.0 ==> t as real - 1.0 < r <= t as real
  {
    if r >= 0.0 then r.Floor else -((-r).Floor)
  }

  /** `math.ceil(n / 2) * 2`: the least even integer not below `n`. */
  function EvenUp(n: int): (e: int)
    ensures e % 2 == 0
    ensures n <= e <= n + 1
  {
    (n + 1) / 2 * 2
  }

  /** `math.ceil(a / b)` for a positive divisor. */
  function CeilDiv(a: int, b: int): (q: int)
    requires b > 0
    ensures (q - 1) * b < a <= q * b
  {
    -((-a) / b)
  }

  /**
   * `x ^ y` on Python integers: bitwise exclusive or of the (infinite)
   * two's-complement expansions, built from the lowest bit upwards.
   */
  function Xor(x: int, y: int): int
    decreases Abs(x) + Abs(y)
  {
    if (x == 0 || x == -1) && (y == 0 || y == -1) then
      (if x == y then 0 else -1)
    else
      HalfShrinks(x);
      HalfShrinks(y);
      2 * Xor(x / 2, y / 2) + (if x % 2 == y % 2 then 0 else 1)
  }

  /** Halving (rounding down) moves every integer except 0 and -1 toward 0. */
  lemma HalfShrinks(x: int)
    ensures Abs(x / 2) <= Abs(x)
    ensures x != 0 && x != -1 ==> Abs(x / 2) < Abs(x)
  {
  }

  /**
   * The sign of `x ^ y` is the exclusive or of the signs: the result is
   * non-negative exactly when `x` and `y` are both non-negative or both
   * negative.
   */
  lemma {:induction false} XorNonNegative(x: int, y: int)
    ensures Xor(x, y) >= 0 <==> (x >= 0 <==> y >= 0)
    decreases Abs(x) + Abs(y)
  {
    if (x == 0 || x == -1) && (y == 0 || y == -1) {
    } else {
      HalfShrinks(x);
      HalfShrinks(y);
      XorNonNegative(x / 2, y / 2);
    }
  }
}

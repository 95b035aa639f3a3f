/**
 * The Java arithmetic the core relies on, written out over unbounded
 * `int` and exact `real`: integer division that truncates toward zero,
 * the `(int)` cast of a double, and `Math.round`.
 */
module Numerics {

  /** Bounds of a Java `int`. */
  const IntMin: int := -0x8000_0000
  const IntMax: int := 0x7FFF_FFFF

  /** Java's `a / b` on ints: the quotient truncated toward zero. */
  function Quot(a: int, b: int): (q: int)
    requires b != 0
    ensures a >= 0 && b > 0 ==> q == a / b
    ensures a >= 0 && b < 0 ==> q == -(a / -b)
    ensures a <= 0 && b > 0 ==> q == -(-a / b)
    ensures a < 0 && b < 0 ==> q == -a / -b
  {
    var magnitude := (if a < 0 then -a else a) / (if b < 0 then -b else b);
    if (a < 0) == (b < 0) then magnitude else -magnitude
  }

  /** Truncation of a real toward zero. */
  function Truncate(x: real): (n: int)
    ensures 0.0 <= x ==> 0 <= n && n as real <= x < n as real + 1.0
    ensures x < 0.0 ==> n <= 0 && n as real - 1.0 < x <= n as real
  {
    if x >= 0.0 then x.Floor else -((-x).Floor)
  }

  /**
   * Java's `(int) d` for a finite double `d`: truncation toward zero,
   * saturating at the bounds of `int`.
   */
  function ToJavaInt(x: real): (n: int)
    ensures IntMin <= n <= IntMax
    ensures IntMin <= Truncate(x) <= IntMax ==> n == Truncate(x)
    ensures Truncate(x) < IntMin ==> n == IntMin
    ensures IntMax < Truncate(x) ==> n == IntMax
  {
    var t := Truncate(x);
    if t < IntMin then IntMin else if t > IntMax then IntMax else t
  }

  /** Java's `Math.round(d)`: the closest integer, ties rounded up. */
  function Round(x: real): (n: int)
    ensures n as real - 0.5 <= x < n as real + 0.5
  {
    (x + 0.5).Floor
  }
}

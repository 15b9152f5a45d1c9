/**
 * The few Java numeric conversions the rasterizers rely on, written out on
 * unbounded integers and exact reals: `Math.round(double)`, the `(int)` cast
 * of a `long`, and `Math.ceil` of a quotient of two positive integers.
 */
module JavaNumbers {

  const IntMin: int := -0x8000_0000
  const IntMax: int := 0x7FFF_FFFF
  const LongMin: int := -0x8000_0000_0000_0000
  const LongMax: int := 0x7FFF_FFFF_FFFF_FFFF

  /**
   * `Math.round(double)`: the nearest integer, halves rounded up, saturated
   * to the range of `long`.
   */
  function Round(x: real): (r: int)
    ensures LongMin <= r <= LongMax
    ensures (LongMin as real) <= x < (LongMax as real) ==> (r as real) - 0.5 <= x < (r as real) + 0.5
  {
    var n := (x + 0.5).Floor;
    if n < LongMin then LongMin else if n > LongMax then LongMax else n
  }

  /** The `(int)` cast of a `long`: keep the low 32 bits, read as two's complement. */
  function IntCast(l: int): (r: int)
    ensures IntMin <= r <= IntMax
    ensures (r - l) % 0x1_0000_0000 == 0
    ensures IntMin <= l <= IntMax ==> r == l
  {
    var low := l % 0x1_0000_0000;
    if low <= IntMax then low else low - 0x1_0000_0000
  }

  /** `(int) Math.ceil(a / (double) b)` for a positive divisor. */
  function CeilDiv(a: int, b: int): (r: int)
    requires b > 0
    ensures (r - 1) * b < a <= r * b
  {
    var q := (a + b - 1) / b;
    assert q * b <= a + b - 1 < q * b + b;
    q
  }

  lemma CeilDivMonotone(a1: int, a2: int, b: int)
    requires b > 0 && a1 <= a2
    ensures CeilDiv(a1, b) <= CeilDiv(a2, b)
  {
    var r1, r2 := CeilDiv(a1, b), CeilDiv(a2, b);
    assert (r1 - 1) * b < a2 <= r2 * b;
  }
}

/**
 Java's fixed-width integers, as far as the widget relies on them: `int` for
 colours and progress, `long` for durations, two's-complement wrap-around of
 `long` subtraction and the truncating division of `long` values.
 */
module JavaInts {

  const IntMin: int := -0x8000_0000
  const IntMax: int := 0x7FFF_FFFF
  const LongMin: int := -0x8000_0000_0000_0000
  const LongMax: int := 0x7FFF_FFFF_FFFF_FFFF
  const LongModulus: int := 0x1_0000_0000_0000_0000

  /** Values of Java's `int`. */
  type Int32 = x: int | -0x8000_0000 <= x <= 0x7FFF_FFFF

  /** Values of Java's `long`. */
  type Long = x: int | -0x8000_0000_0000_0000 <= x <= 0x7FFF_FFFF_FFFF_FFFF

  /** The `int` a 32-bit hexadecimal literal such as `0xFFEEEEEE` denotes in Java. */
  function Int32Of(bits: nat): (r: Int32)
    requires bits < 0x1_0000_0000
    ensures (r - bits) % 0x1_0000_0000 == 0
    ensures r < 0 <==> bits >= 0x8000_0000
  {
    if bits < 0x8000_0000 then bits else bits - 0x1_0000_0000
  }

  /** The `long` that Java arithmetic yields for the mathematical value `x`. */
  function WrapLong(x: int): (r: Long)
    ensures (r - x) % LongModulus == 0
  {
    (x - LongMin) % LongModulus + LongMin
  }

  /** A result that fits in a `long` is not changed by wrapping. */
  lemma WrapLongInRange(x: int)
    requires LongMin <= x <= LongMax
    ensures WrapLong(x) == x
  {
  }

  /** Java's `/`: the quotient is rounded toward zero, so the remainder takes the sign of `a`. */
  function DivTrunc(a: int, b: int): (q: int)
    requires b > 0
    ensures a >= 0 ==> 0 <= a - q * b < b
    ensures a < 0 ==> -b < a - q * b <= 0
  {
    if a >= 0 then a / b else -((-a) / b)
  }

  /** On non-negative operands Java's division agrees with Dafny's. */
  lemma DivTruncNonNegative(a: int, b: int)
    requires a >= 0 && b > 0
    ensures DivTrunc(a, b) == a / b
  {
  }
}

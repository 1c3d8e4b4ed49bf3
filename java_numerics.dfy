/**
 * The Java primitive conversions the signal pipeline relies on, written out over unbounded
 * integers and reals: the float-to-int cast (section 5.1.3 of the Java Language Specification),
 * the narrowing int-to-byte cast and the arithmetic right shift.
 */
module JavaNumerics {

  /** Java's signed 8-bit `byte`. */
  newtype byte = x: int | -128 <= x < 128

  const IntMin: int := -0x8000_0000
  const IntMax: int := 0x7FFF_FFFF

  /** Rounding toward zero, the rounding of every Java floating-point-to-integer cast. */
  function Trunc(r: real): (t: int)
    ensures 0.0 <= r ==> 0 <= t && t as real <= r < t as real + 1.0
    ensures r < 0.0 ==> t <= 0 && t as real - 1.0 < r <= t as real
  {
    if r >= 0.0 then r.Floor else -((-r).Floor)
  }

  /** `(int) r` for a finite `r`: round toward zero, then saturate at the bounds of `int`. */
  function IntCast(r: real): (c: int)
    ensures IntMin <= c <= IntMax
    ensures IntMin <= Trunc(r) <= IntMax ==> c == Trunc(r)
    ensures Trunc(r) < IntMin ==> c == IntMin
    ensures IntMax < Trunc(r) ==> c == IntMax
  {
    var t := Trunc(r);
    if t < IntMin then IntMin else if t > IntMax then IntMax else t
  }

  /** `(byte) x`: keep the low 8 bits of `x`, read back as two's complement. */
  function ToByte(x: int): (b: byte)
    ensures (b as int - x) % 256 == 0
    ensures -128 <= x < 128 ==> b as int == x
  {
    var low := x % 256;
    if low >= 128 then (low - 256) as byte else low as byte
  }

  /** `x >> 8` on an `int`: the arithmetic shift rounds toward negative infinity. */
  function ShiftRight8(x: int): (r: int)
    ensures r * 256 <= x < r * 256 + 256
  {
    x / 256
  }

  /** The value of the low 16 bits of `x` read as a 16-bit two's-complement integer (Java `short`). */
  function Wrap16(x: int): (w: int)
    ensures -0x8000 <= w < 0x8000
    ensures (w - x) % 0x1_0000 == 0
    ensures -0x8000 <= x < 0x8000 ==> w == x
  {
    (x + 0x8000) % 0x1_0000 - 0x8000
  }
}

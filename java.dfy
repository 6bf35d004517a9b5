/** Java's primitive integer types and the arithmetic the record relies on.
    Java `long`, `int` and `short` are two's-complement; `+`, `-` and `*` wrap around,
    and a narrowing cast keeps the low bits. Dafny integers are unbounded, so every
    wrap-around is written out here. */
module Java {

  const TWO_32: int := 0x1_0000_0000
  const TWO_64: int := 0x1_0000_0000_0000_0000

  /** `Long.MIN_VALUE`, `Long.MAX_VALUE`, `Integer.MIN_VALUE`, `Integer.MAX_VALUE` */
  const LONG_MIN: int := -0x8000_0000_0000_0000
  const LONG_MAX: int := 0x7FFF_FFFF_FFFF_FFFF
  const INT_MIN: int := -0x8000_0000
  const INT_MAX: int := 0x7FFF_FFFF

  type Long = x: int | -0x8000_0000_0000_0000 <= x < 0x8000_0000_0000_0000
  type Int = x: int | -0x8000_0000 <= x < 0x8000_0000
  type Short = x: int | -0x8000 <= x < 0x8000

  /** A Java reference that may be null. */
  datatype Option<+T> = None | Some(value: T)

  /** The outcome of a Java expression that either yields a value or throws. */
  datatype Result<+T, +E> = Success(value: T) | Failure(error: E) {
    predicate IsFailure() { Failure? }
    function PropagateFailure<U>(): Result<U, E> requires Failure? { Failure(error) }
    function Extract(): T requires Success? { value }
  }

  /** The `long` that Java arithmetic yields for the mathematical value `x`. */
  function WrapLong(x: int): (r: Long)
    ensures (x - r) % TWO_64 == 0
    ensures LONG_MIN <= x <= LONG_MAX ==> r == x
  {
    (x - LONG_MIN) % TWO_64 + LONG_MIN
  }

  /** The `int` that Java arithmetic, or the cast `(int)`, yields for the value `x`. */
  function WrapInt(x: int): (r: Int)
    ensures (x - r) % TWO_32 == 0
    ensures INT_MIN <= x <= INT_MAX ==> r == x
  {
    (x - INT_MIN) % TWO_32 + INT_MIN
  }

  /** Adding a multiple of 2^32 does not change what `(int)` yields. */
  lemma {:induction false} WrapIntShift(x: int, k: int)
    ensures WrapInt(x + k * TWO_32) == WrapInt(x)
  {
    var a := x - INT_MIN;
    var q, r := a / TWO_32, a % TWO_32;
    assert a + k * TWO_32 == (q + k) * TWO_32 + r;
  }

  /** Wrapping an intermediate `int` result does not change the final wrapped result
      of a multiply-add: Java's step-by-step overflow equals one overflow at the end. */
  lemma {:induction false} WrapIntMulAdd(c: int, x: int, y: int)
    ensures WrapInt(c * WrapInt(x) + y) == WrapInt(c * x + y)
  {
    var k := (x - WrapInt(x)) / TWO_32;
    assert WrapInt(x) == x - k * TWO_32;
    assert c * WrapInt(x) + y == (c * x + y) + (-c * k) * TWO_32;
    WrapIntShift(c * x + y, -c * k);
  }

  /** Two's-complement bit pattern of a `long`. */
  function LongBits(x: Long): bv64
  {
    (if x < 0 then x + 0x1_0000_0000_0000_0000 else x) as bv64
  }

  /** The `long` whose two's-complement bit pattern is `b`. */
  function LongOfBits(b: bv64): Long
  {
    if b as int < 0x8000_0000_0000_0000 then b as int else b as int - 0x1_0000_0000_0000_0000
  }

  /** Reading a bit pattern as a `long` and taking its bits again gives the pattern back. */
  lemma LongBitsOfLongOfBits(b: bv64)
    ensures LongBits(LongOfBits(b)) == b
  {
  }
}

/**
 * The Java value types the page metadata record works with: bytes of a
 * stream, 16-bit unsigned lengths, 32-bit `int`s, 64-bit `long`s with Java's
 * wrap-around subtraction and `Math.abs`, and the Option/Result wrappers that
 * stand for `null` and for a thrown exception.
 */
module JavaTypes {

  const TWO_TO_16: int := 0x1_0000
  const TWO_TO_32: int := 0x1_0000_0000
  const TWO_TO_64: int := 0x1_0000_0000_0000_0000

  const MIN_INT: int := -0x8000_0000
  const MAX_INT: int := 0x7fff_ffff
  const MIN_LONG: int := -0x8000_0000_0000_0000
  const MAX_LONG: int := 0x7fff_ffff_ffff_ffff

  /** One byte of a stream, as `InputStream.read` delivers it. */
  type byte = x: int | 0 <= x < 0x100

  /** A value of `readUnsignedShort`. */
  type uint16 = x: int | 0 <= x < 0x1_0000

  /** A Java `int`. */
  type int32 = x: int | -0x8000_0000 <= x < 0x8000_0000

  /** A Java `long`. */
  type long = x: int | -0x8000_0000_0000_0000 <= x < 0x8000_0000_0000_0000

  /** A reference that may be `null`. */
  datatype Option<+T> = None | Some(value: T) {
    function GetOr(default: T): T {
      match this
      case Some(v) => v
      case None => default
    }
  }

  /** A call that returns a value or throws. */
  datatype Result<+T, +E> = Success(value: T) | Failure(error: E)

  /** Java's `a - b` on `long`: the difference wrapped into the signed 64-bit range. */
  function LongSub(a: long, b: long): (r: long)
    ensures MIN_LONG <= a - b <= MAX_LONG ==> r == a - b
    ensures r == a - b || r == a - b - TWO_TO_64 || r == a - b + TWO_TO_64
  {
    var d := a - b;
    if d > MAX_LONG then d - TWO_TO_64
    else if d < MIN_LONG then d + TWO_TO_64
    else d
  }

  /** Java's `Math.abs(long)`: negation overflows for the least `long`, which stays negative. */
  function LongAbs(x: long): (r: long)
    ensures x != MIN_LONG ==> r >= 0 && (r == x || r == -x)
    ensures x == MIN_LONG ==> r < 0
  {
    if x >= 0 then x else if x == MIN_LONG then x else -x
  }
}

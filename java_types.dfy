/** Java value types the model needs: nullable references and fixed-width
    two's-complement integers. */
module JavaTypes {

  /** A Java reference that may be null. */
  datatype Option<+T> = None | Some(value: T)

  const INT32_MIN: int := -0x8000_0000
  const INT32_MAX: int := 0x7FFF_FFFF
  const INT64_MIN: int := -0x8000_0000_0000_0000
  const INT64_MAX: int := 0x7FFF_FFFF_FFFF_FFFF
  const TWO_POW_64: int := 0x1_0000_0000_0000_0000

  /** Java `int`. */
  type Int32 = x: int | INT32_MIN <= x <= INT32_MAX

  /** Java `long`. */
  type Int64 = x: int | INT64_MIN <= x <= INT64_MAX

  /** The `long` that Java arithmetic yields for the mathematical value `x`:
      the unique value in the `long` range congruent to `x` modulo 2^64. */
  function Wrap64(x: int): (r: Int64)
    ensures (r - x) % TWO_POW_64 == 0
    ensures INT64_MIN <= x <= INT64_MAX ==> r == x
  {
    (x - INT64_MIN) % TWO_POW_64 + INT64_MIN
  }
}

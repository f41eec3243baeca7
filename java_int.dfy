/** Java's fixed-width integers and their two's-complement wrap-around. */
module JavaInt {

  type Int8 = x: int | -0x80 <= x < 0x80
  type Int32 = x: int | -0x8000_0000 <= x < 0x8000_0000
  type Int64 = x: int | -0x8000_0000_0000_0000 <= x < 0x8000_0000_0000_0000

  predicate InInt32(v: int) {
    -0x8000_0000 <= v < 0x8000_0000
  }

  predicate InInt64(v: int) {
    -0x8000_0000_0000_0000 <= v < 0x8000_0000_0000_0000
  }

  /**
   * The `int` a Java `int` expression yields when its exact value is `v`: `v` shifted
   * by multiples of 2^32 into the 32-bit range.
   */
  function Wrap32(v: int): Int32
    decreases if v < -0x8000_0000 then -0x8000_0000 - v else if v >= 0x8000_0000 then v - 0x7fff_ffff else 0
  {
    if v < -0x8000_0000 then Wrap32(v + 0x1_0000_0000)
    else if v >= 0x8000_0000 then Wrap32(v - 0x1_0000_0000)
    else v
  }

  /**
   * The `long` a Java `long` expression yields when its exact value is `v`: `v` shifted
   * by multiples of 2^64 into the 64-bit range.
   */
  function Wrap64(v: int): Int64
    decreases if v < -0x8000_0000_0000_0000 then -0x8000_0000_0000_0000 - v
              else if v >= 0x8000_0000_0000_0000 then v - 0x7fff_ffff_ffff_ffff else 0
  {
    if v < -0x8000_0000_0000_0000 then Wrap64(v + 0x1_0000_0000_0000_0000)
    else if v >= 0x8000_0000_0000_0000 then Wrap64(v - 0x1_0000_0000_0000_0000)
    else v
  }
}

/** Java's fixed-width integers, written out: the activity keeps its spinner
    selections in `long` fields and the reminder computation narrows them to
    `int` with a cast before adding to them. */
module JavaInt {

  const TWO_TO_31: int := 0x8000_0000
  const TWO_TO_32: int := 0x1_0000_0000

  /** Java `int`. */
  newtype Int32 = x: int | -0x8000_0000 <= x < 0x8000_0000

  /** Java `long`. */
  newtype Int64 = x: int | -0x8000_0000_0000_0000 <= x < 0x8000_0000_0000_0000

  /** Two's-complement reduction of an unbounded integer to 32 bits: the
      unique `int` value congruent to `x` modulo 2^32. */
  function Wrap32(x: int): (r: Int32)
    ensures (r as int - x) % TWO_TO_32 == 0
    ensures -TWO_TO_31 <= x < TWO_TO_31 ==> r as int == x
  {
    ((x + TWO_TO_31) % TWO_TO_32 - TWO_TO_31) as Int32
  }

  /** The cast `(int) x` of a `long`, which keeps its low 32 bits. */
  function LongToInt(x: Int64): (r: Int32)
    ensures (r as int - x as int) % TWO_TO_32 == 0
    ensures -TWO_TO_31 <= x as int < TWO_TO_31 ==> r as int == x as int
  {
    Wrap32(x as int)
  }

  /** Java's `int + int`, which wraps around on overflow. */
  function AddInt(a: Int32, b: Int32): (r: Int32)
    ensures (r as int - a as int - b as int) % TWO_TO_32 == 0
    ensures -TWO_TO_31 <= a as int + b as int < TWO_TO_31 ==> r as int == a as int + b as int
  {
    Wrap32(a as int + b as int)
  }
}

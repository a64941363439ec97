/** Java's 32-bit `int` and its wrap-around addition and subtraction. */
module JavaInt {
  const MIN: int := -0x8000_0000
  const MAX: int := 0x7fff_ffff
  const MODULUS: int := 0x1_0000_0000

  /** The values of a Java `int`. */
  type Int32 = x: int | -0x8000_0000 <= x <= 0x7fff_ffff

  /** The `int` that Java's two's-complement arithmetic yields when the exact result of adding
      or subtracting two `int`s is `x`: the 32-bit value congruent to `x` modulo 2^32. */
  function Wrap(x: int): (r: Int32)
    requires MIN + MIN <= x <= MAX - MIN
    ensures (x - r) % MODULUS == 0
    ensures MIN <= x <= MAX ==> r == x
    ensures MAX < x ==> r < 0
    ensures x < MIN ==> r >= 0
  {
    if x > MAX then x - MODULUS else if x < MIN then x + MODULUS else x
  }
}

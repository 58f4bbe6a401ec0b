/** What a machine word of 32 bits holds. */
module Words {

  const MIN := -0x8000_0000
  const MAX := 0x7FFF_FFFF

  type Int32 = x: int | MIN <= x <= MAX

  /** What 32 bits in two's complement hold of a number, and what they are without a sign. */
  function Wrap(x: int): (w: Int32)
    ensures MIN <= x <= MAX <==> w == x
  {
    (x + 0x8000_0000) % 0x1_0000_0000 - 0x8000_0000
  }

  function Unsigned(x: int): nat {
    x % 0x1_0000_0000
  }
}

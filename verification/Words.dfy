/** int4 as the machine has it. */
module Words {
  const MIN32 := -0x8000_0000
  const MAX32 := 0x7fff_ffff

  predicate Int32(x: int) { MIN32 <= x <= MAX32 }

  /** Two's complement wrap-around. */
  function Wrap32(x: int): (r: int)
    ensures Int32(r) && (x - r) % 0x1_0000_0000 == 0
  {
    (x + 0x8000_0000) % 0x1_0000_0000 - 0x8000_0000
  }
}

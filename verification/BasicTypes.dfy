/** Optional values, machine integers and texts of the modelled code. */
module BasicTypes {

  datatype Option<+T> = None | Some(value: T)

  const UINT8_MAX := 0xFF
  const UINT16_RANGE := 0x1_0000
  const UINT32_MAX := 0xFFFF_FFFF
  const UINT32_RANGE := 0x1_0000_0000
  const UINT64_RANGE := 0x1_0000_0000_0000_0000

  type uint8 = n: int | 0 <= n <= UINT8_MAX
  type uint32 = n: int | 0 <= n <= UINT32_MAX
  type uint64 = n: int | 0 <= n < UINT64_RANGE
  type int32 = n: int | -0x8000_0000 <= n < 0x8000_0000

  /** A text whose offsets fit in 32 bits. */
  type ShortString = s: string | |s| <= UINT32_MAX witness ""

  /** What is left of a number in 32 bits. */
  function Wrap(n: int): uint32 { n % UINT32_RANGE }

  function Min(a: int, b: int): int { if a <= b then a else b }
  function Max(a: int, b: int): int { if a <= b then b else a }
}

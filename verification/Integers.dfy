/** Integer widths, and the arithmetic of signed 32-bit integers. */
module Integers {

  const U16: nat := 0x1_0000
  const U32: nat := 0x1_0000_0000
  const U64: nat := 0x1_0000_0000_0000_0000
  const I16: nat := 0x8000
  const I32: nat := 0x8000_0000
  const I64: nat := 0x8000_0000_0000_0000

  type Word = n: nat | n < U32

  function Max(a: int, b: int): int {
    if a < b then b else a
  }

  function Min(a: int, b: int): int {
    if a < b then a else b
  }

  predicate Int64(x: int) {
    -(I64 as int) <= x < I64
  }

  predicate Int32(x: int) {
    -(I32 as int) <= x < I32
  }

  function Add32(x: int, y: int): int
    requires Int32(x) && Int32(y)
  {
    if x + y >= I32 then x + y - U32 else if x + y + I32 < 0 then x + y + U32 else x + y
  }
}

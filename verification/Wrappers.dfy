/** Values that may be absent. */
module Wrappers {
  datatype Option<+T> = None | Some(value: T)

  type U32 = n: int | 0 <= n < 0x1_0000_0000
  type U64 = n: int | 0 <= n < 0x1_0000_0000_0000_0000

  /** Unsigned addition wraps around. */
  function Add32(a: U32, b: U32): U32 { (a + b) % 0x1_0000_0000 }

  function Add64(a: U64, b: U64): U64 { (a + b) % 0x1_0000_0000_0000_0000 }
}

/** Unsigned fixed-width integers of the C++ source and their wrapping
    addition. */
module FixedWidth {
  const U32: nat := 0x1_0000_0000
  const U64: nat := 0x1_0000_0000_0000_0000

  type uint32 = x: nat | x < U32
  type uint64 = x: nat | x < U64

  /** `a + b` on `uint32_t`. */
  function Add32(a: uint32, b: uint32): (r: uint32)
    ensures r == (a + b) % U32
    // the usual overflow test: the sum wrapped exactly when it came out below an operand
    ensures r < a <==> a + b >= U32
  {
    if a + b < U32 then a + b else a + b - U32
  }

  /** `a + b` on `uint64_t`. */
  function Add64(a: uint64, b: uint64): (r: uint64)
    ensures r == (a + b) % U64
    // the usual overflow test: the sum wrapped exactly when it came out below an operand
    ensures r < a <==> a + b >= U64
  {
    if a + b < U64 then a + b else a + b - U64
  }
}

/** Names for the host's value types. */
module Host {
  type Address = string
  type Symbol = string

  const U64_MAX := 0xFFFF_FFFF_FFFF_FFFF

  type u32 = x: int | 0 <= x < 0x1_0000_0000

  /** Ledger timestamps and other 64-bit words. */
  type u64 = x: int | 0 <= x <= U64_MAX

  /** Unchecked 64-bit arithmetic of a release build wraps around. */
  function WrapU64(x: int): u64 {
    x % (U64_MAX + 1)
  }

  function WrappingAdd(a: u64, b: u64): u64 {
    WrapU64(a + b)
  }
}

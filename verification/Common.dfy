/** Small vocabulary shared by all components. */
module Common {

  datatype Option<+T> = None | Some(value: T)

  const U64_MODULUS: int := 0x1_0000_0000_0000_0000

  /** The unsigned 64-bit integers: Rust's `u64`, and `usize` on the 64-bit targets. */
  type u64 = x: int | 0 <= x < 0x1_0000_0000_0000_0000

  /** Arithmetic on `u64` wraps around, as it does in a release build. */
  function Wrap(x: int): u64 {
    x % 0x1_0000_0000_0000_0000
  }

  const NANOS_PER_MS: nat := 1_000_000

  function Max(a: u64, b: u64): u64 {
    if a < b then b else a
  }
}

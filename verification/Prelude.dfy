/** Shapes shared by every module: results, machine integers, keys. */
module Prelude {

  datatype Option<+T> = None | Some(value: T)

  datatype Result<+T, +E> = Ok(value: T) | Err(error: E)

  type byte = n: nat | n < 256

  const U32_LIMIT := 0x1_0000_0000
  const U64_LIMIT := 0x1_0000_0000_0000_0000
  const I64_LIMIT := 0x8000_0000_0000_0000

  type u16 = n: nat | n < 0x1_0000
  type u32 = n: nat | n < U32_LIMIT
  type u64 = n: nat | n < U64_LIMIT
  type i64 = n: int | -I64_LIMIT <= n < I64_LIMIT

  /** A 32-byte account key. */
  type Pubkey = key: seq<byte> | |key| == 32 witness seq(32, i => 0)

  /** `Pubkey::default()` */
  function DefaultKey(): Pubkey {
    seq(32, i => 0)
  }

  /** `u64::saturating_add`. */
  function SaturatingAdd(a: u64, b: u64): (r: u64)
    ensures r as int == a + b || (r == U64_LIMIT - 1 && r < a + b)
  {
    if a + b < U64_LIMIT then a + b else U64_LIMIT - 1
  }

  /** `i64::saturating_add`. */
  function SaturatingAddSigned(a: i64, b: i64): (r: i64)
    ensures -I64_LIMIT <= a + b < I64_LIMIT ==> r == a + b
    ensures a + b >= I64_LIMIT ==> r == I64_LIMIT - 1
    ensures a + b < -I64_LIMIT ==> r == -I64_LIMIT
  {
    if a + b >= I64_LIMIT then I64_LIMIT - 1
    else if a + b < -I64_LIMIT then -I64_LIMIT
    else a + b
  }

  /** Two's-complement wrap into 64 bits: the `as i64` cast, and release-mode `+`. */
  function WrapSigned(n: int): (r: i64)
    ensures -I64_LIMIT <= n < I64_LIMIT ==> r == n
    ensures (n - r) % U64_LIMIT == 0
  {
    var low := n % U64_LIMIT;
    if low < I64_LIMIT then low else low - U64_LIMIT
  }

  function Min(a: int, b: int): int {
    if a <= b then a else b
  }

  function Max(a: int, b: int): int {
    if a >= b then a else b
  }
}

/** Optional values, as the source's `Option`, bytes, and the integers whose width matters. */
module Wrappers {
  datatype Option<+T> = None | Some(value: T)

  newtype byte = x: int | 0 <= x < 256

  type Bytes = seq<byte>

  newtype u64 = x: int | 0 <= x < 0x1_0000_0000_0000_0000

  newtype i64 = x: int | -0x8000_0000_0000_0000 <= x < 0x8000_0000_0000_0000

  const U64_MAX: int := 0xFFFF_FFFF_FFFF_FFFF
  const I64_MAX: int := 0x7FFF_FFFF_FFFF_FFFF
  const I64_MIN: int := -0x8000_0000_0000_0000

  function SaturatingAdd(a: i64, b: i64): (r: i64) {
    var sum := a as int + b as int;
    if sum > I64_MAX then I64_MAX as i64 else if sum < I64_MIN then I64_MIN as i64 else sum as i64
  }
}

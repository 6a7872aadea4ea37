/** The contract's integer widths and its checked arithmetic. */
module Limits {
  import opened Wrappers

  const I128_MIN: int := -0x8000_0000_0000_0000_0000_0000_0000_0000
  const I128_MAX: int := 0x7FFF_FFFF_FFFF_FFFF_FFFF_FFFF_FFFF_FFFF
  const U64_MAX: int := 0xFFFF_FFFF_FFFF_FFFF
  const U32_MAX: int := 0xFFFF_FFFF

  type I128 = x: int | I128_MIN <= x <= I128_MAX
  type U64 = x: int | 0 <= x <= U64_MAX
  type U32 = x: int | 0 <= x <= U32_MAX

  /** A sum or product computed exactly and then checked against the width. */
  function CheckedI128(x: int): (r: Option<I128>)
    ensures r.Some? <==> I128_MIN <= x <= I128_MAX
    ensures r.Some? ==> r.value == x
  {
    if I128_MIN <= x <= I128_MAX then Some(x) else None
  }

  function CheckedU64(x: int): (r: Option<U64>)
    ensures r.Some? <==> 0 <= x <= U64_MAX
    ensures r.Some? ==> r.value == x
  {
    if 0 <= x <= U64_MAX then Some(x) else None
  }

  function CheckedU32(x: int): (r: Option<U32>)
    ensures r.Some? <==> 0 <= x <= U32_MAX
    ensures r.Some? ==> r.value == x
  {
    if 0 <= x <= U32_MAX then Some(x) else None
  }
}

/** Small value types shared by every module of the model: an optional value
    (the source's `std::optional` and nullable handles), a result with an
    error (the source's thrown `std::runtime_error`s), and the unsigned 32-bit
    integers the renderer stores its counters and extents in. */
module Wrappers {

  datatype Option<+T> = None | Some(value: T)

  datatype Result<+T, +E> = Ok(value: T) | Err(error: E)

  /** 2^32: every `uint32_t` of the source lives below this bound. */
  const U32Limit: int := 0x1_0000_0000

  /** `UINT32_MAX`. */
  const U32Max: int := 0xFFFF_FFFF

  type u32 = x: int | 0 <= x < U32Limit

  /** `uint32_t` addition: wraps around modulo 2^32 as C++ unsigned arithmetic does. */
  function AddU32(a: u32, b: nat): (r: u32)
    ensures a + b < U32Limit ==> r == a + b
    ensures a + b >= U32Limit && b < U32Limit ==> r == a + b - U32Limit
  {
    (a + b) % U32Limit
  }

  /** Two successive wrapping additions are one wrapping addition of the sum. */
  lemma AddU32Twice(a: u32, b: nat, c: nat)
    ensures AddU32(AddU32(a, b), c) == AddU32(a, b + c)
  {
    var q := (a + b) / U32Limit;
    assert a + b == q * U32Limit + AddU32(a, b);
    assert AddU32(a, b) + c == (a + b + c) - q * U32Limit;
    ModShift(a + b + c, q);
  }

  lemma ModShift(x: int, q: int)
    requires x - q * U32Limit >= 0
    ensures (x - q * U32Limit) % U32Limit == x % U32Limit
    decreases if q > 0 then q else -q
  {
    if q > 0 {
      ModShift(x - U32Limit, q - 1);
    } else if q < 0 {
      ModShift(x + U32Limit, q + 1);
    }
  }
}

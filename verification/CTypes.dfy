/** Machine integer ranges of the firmware and the result shapes shared by its components. */
module CTypes {

  const UINT8_MAX: int := 0xFF
  const UINT32_MAX: int := 0xFFFF_FFFF
  const INT64_MAX: int := 0x7FFF_FFFF_FFFF_FFFF
  const INT64_MIN: int := -0x8000_0000_0000_0000

  // Subset types, so that every store into a field or parameter is range-checked while
  // the arithmetic in between stays on mathematical integers.
  type uint8 = x: int | 0 <= x < 0x100
  type uint16 = x: int | 0 <= x < 0x1_0000
  type uint32 = x: int | 0 <= x < 0x1_0000_0000
  type int64 = x: int | -0x8000_0000_0000_0000 <= x < 0x8000_0000_0000_0000

  datatype Option<+T> = None | Some(value: T)

  /** The value written through an out-pointer, or the error status and nothing written. */
  datatype Result<+T, +E> = Ok(value: T) | Err(error: E)

  function Abs(x: int): nat {
    if x < 0 then -x else x
  }

  function Min(a: int, b: int): int {
    if a <= b then a else b
  }

  lemma ScaledOrder(s: nat, x: int, y: int)
    requires x <= y
    ensures s * x <= s * y
  {
    assert s * (y - x) >= 0;
  }

  lemma QuotientIs(x: int, d: int, q: int)
    requires 0 < d
    ensures x / d == q <==> d * q <= x < d * q + d
  {
    var e := x / d;
    assert x == d * e + x % d;
    if e < q {
      ScaledOrder(d, e + 1, q);
    } else if e > q {
      ScaledOrder(d, q + 1, e);
    }
  }
}

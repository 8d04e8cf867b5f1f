/** Go's fixed-width integers. */
module Integers {
  const MAX_INT32 := 0x7fff_ffff
  const MAX_INT64 := 0x7fff_ffff_ffff_ffff
  const TWO_TO_THE_64 := 0x1_0000_0000_0000_0000

  predicate IsInt32(n: int) {
    -MAX_INT32 - 1 <= n <= MAX_INT32
  }

  predicate IsInt64(n: int) {
    -MAX_INT64 - 1 <= n <= MAX_INT64
  }

  type int32 = n: int | IsInt32(n)

  type int64 = n: int | IsInt64(n)

  /** Two's complement wrap-around of 64-bit arithmetic. */
  function Wrap64(n: int): (w: int64)
    ensures w == n <==> IsInt64(n)
    ensures (w - n) % TWO_TO_THE_64 == 0
  {
    var m := n % TWO_TO_THE_64;
    if m <= MAX_INT64 then m else m - TWO_TO_THE_64
  }

  /** Conversion to int32 keeps the low 32 bits. */
  function Wrap32(n: int): (w: int32)
    ensures w == n <==> IsInt32(n)
  {
    var m := n % 0x1_0000_0000;
    if m <= MAX_INT32 then m else m - 0x1_0000_0000
  }

  /** int64 to int32 conversion that saturates at the top and cuts negatives to zero. */
  function Clamp32(n: int64): (w: int32)
    ensures w >= 0
    ensures w == n <==> 0 <= n <= MAX_INT32
  {
    if n > MAX_INT32 then MAX_INT32 else if n < 0 then 0 else n
  }

  lemma MulMonotone(a: int, b: int, m: int)
    requires a <= b && m >= 0
    ensures a * m <= b * m
  {
    assert (b - a) * m >= 0;
  }
}

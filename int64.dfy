/** Go's `int64` and the two's-complement addition performed by `atomic.Int64.Add`. */
module Int64Arith {

  const MIN64: int := -0x8000_0000_0000_0000
  const MAX64: int := 0x7fff_ffff_ffff_ffff
  /** 2^64, the modulus of int64 arithmetic. */
  const WRAP: int := 0x1_0000_0000_0000_0000

  type Int64 = x: int | MIN64 <= x <= MAX64

  /** `a + b` on int64: the one int64 value congruent to the mathematical sum modulo 2^64. */
  function Add(a: Int64, b: Int64): (r: Int64)
    ensures MIN64 <= a + b <= MAX64 ==> r == a + b
    ensures (r - (a + b)) % WRAP == 0
  {
    var sum := a + b;
    if sum > MAX64 then sum - WRAP
    else if sum < MIN64 then sum + WRAP
    else sum
  }

  /** Adding one and then minus one restores every int64 value, including across the wrap. */
  lemma AddOneThenMinusOne(x: Int64)
    ensures Add(Add(x, 1), -1) == x
  {
  }
}

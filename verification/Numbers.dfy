/** The bounds and powers that delays, attempts and batches are made of. */
module Numbers {

  function AtLeast(a: int, b: int): int {
    if a >= b then a else b
  }

  function AtMost(a: int, b: int): int {
    if a <= b then a else b
  }

  function PowerOfTwo(n: nat): nat {
    if n == 0 then 1 else 2 * PowerOfTwo(n - 1)
  }
}

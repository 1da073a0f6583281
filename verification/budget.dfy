/** The arithmetic of the attempt bound: how many retries a budget leaves. */
module Budget {

  /** The larger of two integers. */
  function Max(a: int, b: int): int {
    if a >= b then a else b
  }

  /** `x` clamped below at zero: the retries left when `x` is the budget
      minus the counter. */
  function Max0(x: int): nat {
    if x > 0 then x else 0
  }
}

/** Optional values, shared by every module. */
module Wrappers {
  datatype Option<+T> = None | Some(value: T)

  /** 2 to the power of n. */
  function Pow2(n: nat): (p: nat)
    ensures p >= 1
  {
    if n == 0 then 1 else 2 * Pow2(n - 1)
  }
}

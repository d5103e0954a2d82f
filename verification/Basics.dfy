/** Small notions that several components share. */
module Basics {

  const UINT64: nat := 0x1_0000_0000_0000_0000

  /** Two's complement: the int64 with the low 64 bits of n. */
  function Signed64(n: int): int {
    var m := n % UINT64;
    if m < 0x8000_0000_0000_0000 then m else m - UINT64
  }

  function Pow2(k: nat): nat {
    if k == 0 then 1 else 2 * Pow2(k - 1)
  }

  function Min(a: nat, b: nat): nat {
    if a < b then a else b
  }

  ghost predicate Distinct<T(!new)>(s: seq<T>) {
    forall i, j | 0 <= i < j < |s| :: s[i] != s[j]
  }
}

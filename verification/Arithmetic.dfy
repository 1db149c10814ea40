/** Numbers that several components count with. */
module Arithmetic {

  function Min(a: nat, b: nat): nat {
    if a <= b then a else b
  }

  function Pow2(k: nat): (r: nat)
    ensures r > 0
  {
    if k == 0 then 1 else 2 * Pow2(k - 1)
  }

  lemma Scaled(a: int, b: int, n: nat)
    ensures a <= b ==> a * n <= b * n
    ensures (a + 1) * n == a * n + n
  {
  }
}

// Integer helpers the source takes from its standard library.
module Arith {

  /** Subtraction that stops at zero. */
  function SaturatingSub(a: nat, b: nat): nat {
    if a >= b then a - b else 0
  }

  function Minimum(a: nat, b: nat): nat {
    if a <= b then a else b
  }

  function Maximum(a: nat, b: nat): nat {
    if a >= b then a else b
  }

  lemma SubsetIsNoLarger<T>(s: set<T>, t: set<T>)
    requires s <= t
    ensures |s| <= |t|
  {
    assert t == s + (t - s);
  }

  function Abs(n: int): nat {
    if n < 0 then -n else n
  }
}

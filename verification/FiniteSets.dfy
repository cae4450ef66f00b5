/** Sizes of finite sets. */
module FiniteSets {

  /** The numbers below `n`. */
  function Below(n: nat): (s: set<int>)
    ensures forall b :: b in s <==> 0 <= b < n
    ensures |s| == n
  {
    if n == 0 then {} else Below(n - 1) + {n - 1}
  }

  lemma SubsetSize<T>(a: set<T>, b: set<T>)
    requires a <= b
    ensures |a| <= |b|
  {
    assert b == a + (b - a);
  }
}

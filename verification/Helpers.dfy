/** What several modules use. */
module Helpers {

  datatype Option<+T> = None | Some(value: T)

  /** The largest value of an `int`. */
  const INT_MAX := 0x7FFF_FFFF

  function Elements<T>(q: seq<T>): set<T> {
    set x | x in q
  }

  lemma SubsetSize<T>(a: set<T>, b: set<T>)
    requires a <= b
    ensures |a| <= |b|
  {
    assert b == a + (b - a);
  }

  function Below(n: nat): set<nat> {
    if n == 0 then {} else Below(n - 1) + {n - 1}
  }

  lemma {:induction false} BelowElements(n: nat)
    ensures |Below(n)| == n && forall i: nat :: i in Below(n) <==> i < n
  {
    if n > 0 {
      BelowElements(n - 1);
    }
  }
}

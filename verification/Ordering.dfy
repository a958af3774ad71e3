/**
 * Iteration orders of the C++ containers: `set<int>` and `map<int, int>` run in ascending key order,
 * a `set<Message*>` in pointer order, which a program cannot predict.
 */
module Ordering {

  /** A 32-bit signed integer, the `int` of the C++ program. */
  type Int32 = x: int | -0x8000_0000 <= x < 0x8000_0000

  /** The value of a 64-bit number once it is stored in an `int`. */
  function ToInt32(x: int): Int32 {
    (x + 0x8000_0000) % 0x1_0000_0000 - 0x8000_0000
  }

  /** `q` lists every element of `s` once. */
  ghost predicate Lists<T(!new)>(q: seq<T>, s: set<T>) {
    && (forall x :: x in q <==> x in s)
    && (forall i, j :: 0 <= i < j < |q| ==> q[i] != q[j])
  }

  predicate Ascending(q: seq<int>) {
    forall i, j :: 0 <= i < j < |q| ==> q[i] < q[j]
  }

  ghost predicate IsMin(m: Int32, s: set<Int32>) {
    m in s && forall x :: x in s ==> m <= x
  }

  lemma MinExists(s: set<Int32>)
    requires s != {}
    ensures exists m :: IsMin(m, s)
  {
    var y :| y in s;
    if exists z :: z in s && z != y {
      var z :| z in s && z != y;
      assert z in s - {y};
      MinExists(s - {y});
      var m :| IsMin(m, s - {y});
      var least := if m <= y then m else y;
      forall x | x in s ensures least <= x {
        assert x == y || x in s - {y};
      }
      assert IsMin(least, s);
    } else {
      assert IsMin(y, s);
    }
  }

  /** The elements of `s` in ascending order. */
  function Sorted(s: set<Int32>): (q: seq<Int32>)
    ensures |q| == |s|
  {
    if s == {} then []
    else
      MinExists(s);
      var m :| m in s && forall x :: x in s ==> m <= x;
      [m] + Sorted(s - {m})
  }

  lemma {:induction false} SortedElements(s: set<Int32>)
    ensures forall x :: x in Sorted(s) <==> x in s
  {
    if s != {} {
      var q := Sorted(s);
      var m := q[0];
      MinExists(s);
      SortedElements(s - {m});
      forall x ensures x in q <==> x in s {
        assert q == [m] + Sorted(s - {m});
        assert x in q <==> x == m || x in Sorted(s - {m});
      }
    }
  }

  lemma {:induction false} SortedAscends(s: set<Int32>)
    ensures Ascending(Sorted(s))
  {
    if s != {} {
      var q := Sorted(s);
      var m, rest := q[0], Sorted(s - {q[0]});
      MinExists(s);
      assert IsMin(m, s) && q == [m] + rest;
      SortedAscends(s - {m});
      SortedElements(s - {m});
      assert forall i :: 0 <= i < |rest| ==> rest[i] in s && m != rest[i];
    }
  }

  /** The elements of `s` in an arbitrary order. */
  method Listing<T(!new, ==)>(s: set<T>) returns (q: seq<T>)
    ensures Lists(q, s)
  {
    q := [];
    var rest := s;
    while rest != {}
      invariant rest <= s && Lists(q, s - rest)
      decreases rest
    {
      var x :| x in rest;
      ghost var done := s - rest;
      rest := rest - {x};
      assert s - rest == done + {x};
      q := q + [x];
    }
    assert s - rest == s;
  }
}

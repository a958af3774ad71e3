/** The shuffle of gtest as a function of its draws: each order of the range comes from one list of draws. */
module FisherYates {
  import opened Arithmetic
  import opened TestSuite

  /** One draw for each width from `n` down to 2, below that width. */
  predicate AreDraws(draws: seq<nat>, n: nat) {
    |draws| == (if n < 2 then 0 else n - 1) && forall i :: 0 <= i < |draws| ==> draws[i] < n - i
  }

  lemma DrawsNext(draws: seq<nat>, n: nat)
    requires AreDraws(draws, n) && n >= 2
    ensures |draws| == n - 1 && draws[0] < n && AreDraws(draws[1..], n - 1)
  {
  }

  /** The drawn element of what is left goes to the end of it, again and again. */
  function Shuffle(v: seq<int>, begin: nat, end: nat, draws: seq<nat>): (w: seq<int>)
    requires begin <= end <= |v| && AreDraws(draws, end - begin)
    ensures |w| == |v|
    decreases end
  {
    if end - begin < 2 then v
    else
      DrawsNext(draws, end - begin);
      Shuffle(Swap(v, begin + draws[0], end - 1), begin, end - 1, draws[1..])
  }

  /** The draws that the generator makes from `state` on. */
  function DrawsFrom(state: nat, n: nat): (draws: seq<nat>)
    ensures AreDraws(draws, n)
    decreases n
  {
    if n < 2 then []
    else
      var next := NextRandom(state);
      [next % n] + DrawsFrom(next, n - 1)
  }

  function DrawCount(n: nat): nat {
    if n < 2 then 0 else n - 1
  }

  function StateAfter(state: nat, k: nat): nat
    decreases k
  {
    if k == 0 then state else StateAfter(NextRandom(state), k - 1)
  }

  /** The program's shuffle is this one, with the draws of its generator. */
  lemma {:induction false} ShuffledByDraws(state: nat, v: seq<int>, begin: nat, end: nat)
    requires begin <= end <= |v|
    ensures ShuffledRange(state, v, begin, end).0 == Shuffle(v, begin, end, DrawsFrom(state, end - begin))
    ensures ShuffledRange(state, v, begin, end).1 == StateAfter(state, DrawCount(end - begin))
    decreases end
  {
    hide NextRandom;
    if end - begin >= 2 {
      var next := NextRandom(state);
      var k := begin + next % (end - begin);
      assert k == Pick(next, begin, end);
      assert DrawsFrom(state, end - begin)[1..] == DrawsFrom(next, end - 1 - begin);
      ShuffledByDraws(next, Swap(v, k, end - 1), begin, end - 1);
    }
  }

  lemma {:induction false} ShuffleLeaves(v: seq<int>, begin: nat, end: nat, draws: seq<nat>, i: nat)
    requires begin <= end <= |v| && AreDraws(draws, end - begin) && i < |v| && (i < begin || end <= i)
    ensures Shuffle(v, begin, end, draws)[i] == v[i]
    decreases end
  {
    if end - begin >= 2 {
      DrawsNext(draws, end - begin);
      ShuffleLeaves(Swap(v, begin + draws[0], end - 1), begin, end - 1, draws[1..], i);
    }
  }

  /** `w` is `v` with the range from `begin` to `end` in some order. */
  predicate Reorders(v: seq<int>, w: seq<int>, begin: nat, end: nat) {
    && begin <= end <= |v| == |w| && multiset(w[begin..end]) == multiset(v[begin..end])
    && forall i :: 0 <= i < |v| && (i < begin || end <= i) ==> w[i] == v[i]
  }

  lemma SwapInRange(v: seq<int>, k: nat, begin: nat, end: nat)
    requires begin <= k < end <= |v|
    ensures multiset(Swap(v, k, end - 1)[begin..end]) == multiset(v[begin..end])
  {
    SwapKeeps(v[begin..end], k - begin, end - 1 - begin);
    assert Swap(v, k, end - 1)[begin..end] == Swap(v[begin..end], k - begin, end - 1 - begin);
  }

  lemma LastApart(v: seq<int>, begin: nat, end: nat)
    requires begin < end <= |v|
    ensures multiset(v[begin..end]) == multiset(v[begin..end - 1]) + multiset{v[end - 1]}
  {
    assert v[begin..end] == v[begin..end - 1] + [v[end - 1]];
  }

  lemma CancelOne(a: multiset<int>, b: multiset<int>, x: int)
    requires a + multiset{x} == b + multiset{x}
    ensures a == b
  {
    assert a == a + multiset{x} - multiset{x};
    assert b == b + multiset{x} - multiset{x};
  }

  /** What has to stand last is somewhere in the range. */
  lemma LastIsSomewhere(v: seq<int>, w: seq<int>, begin: nat, end: nat) returns (k: nat)
    requires begin < end <= |v| == |w| && multiset(w[begin..end]) == multiset(v[begin..end])
    ensures begin <= k < end && v[k] == w[end - 1]
  {
    assert w[begin..end][end - 1 - begin] == w[end - 1];
    assert w[end - 1] in multiset(w[begin..end]);
    assert w[end - 1] in v[begin..end];
    var j :| 0 <= j < end - begin && v[begin..end][j] == w[end - 1];
    k := begin + j;
  }

  lemma RestReorders(v: seq<int>, w: seq<int>, k: nat, begin: nat, end: nat)
    requires begin <= k < end <= |v| == |w| && v[k] == w[end - 1]
    requires multiset(w[begin..end]) == multiset(v[begin..end])
    ensures multiset(w[begin..end - 1]) == multiset(Swap(v, k, end - 1)[begin..end - 1])
  {
    hide Swap;
    var x := Swap(v, k, end - 1);
    SwapEnds(v, k, end - 1);
    SwapInRange(v, k, begin, end);
    LastApart(w, begin, end);
    LastApart(x, begin, end);
    CancelOne(multiset(w[begin..end - 1]), multiset(x[begin..end - 1]), w[end - 1]);
  }

  lemma SwapEnds(v: seq<int>, k: nat, l: nat)
    requires k < |v| && l < |v|
    ensures Swap(v, k, l)[l] == v[k]
    ensures |Swap(v, k, l)| == |v| && forall i :: 0 <= i < |v| && i != k && i != l ==> Swap(v, k, l)[i] == v[i]
  {
  }

  /** One step towards `w`: what has to stand last is found and moved there. */
  lemma StepTowards(v: seq<int>, w: seq<int>, begin: nat, end: nat) returns (k: nat)
    requires Reorders(v, w, begin, end) && begin < end
    ensures begin <= k < end && Reorders(Swap(v, k, end - 1), w, begin, end - 1)
  {
    hide Swap;
    k := LastIsSomewhere(v, w, begin, end);
    RestReorders(v, w, k, begin, end);
    SwapEnds(v, k, end - 1);
  }

  /** Every order of the range comes from some draws. */
  lemma {:induction false} EveryOrder(v: seq<int>, w: seq<int>, begin: nat, end: nat) returns (draws: seq<nat>)
    requires begin <= end <= |v| && Reorders(v, w, begin, end)
    ensures AreDraws(draws, end - begin) && Shuffle(v, begin, end, draws) == w
    decreases end
  {
    hide Reorders, Swap;
    if end - begin < 2 {
      draws := [];
      FewInRange(v, w, begin, end);
    } else {
      var k := StepTowards(v, w, begin, end);
      SwapEnds(v, k, end - 1);
      var rest := EveryOrder(Swap(v, k, end - 1), w, begin, end - 1);
      draws := [k - begin] + rest;
      OneMoreDraw(k - begin, rest, end - begin);
      assert draws[1..] == rest;
    }
  }

  lemma OneMoreDraw(d: nat, rest: seq<nat>, n: nat)
    requires n >= 2 && d < n && AreDraws(rest, n - 1)
    ensures AreDraws([d] + rest, n)
  {
  }

  lemma FewInRange(v: seq<int>, w: seq<int>, begin: nat, end: nat)
    requires Reorders(v, w, begin, end) && end - begin < 2
    ensures v == w
  {
    if end - begin == 1 {
      assert v[begin..end] == [v[begin]] && w[begin..end] == [w[begin]];
      assert v[begin] in multiset([v[begin]]) && v[begin] in multiset([w[begin]]);
    }
  }

  /** And from no others, if the elements of the range differ: uniform draws make all orders equally likely. */
  lemma {:induction false} DrawsAreUnique(v: seq<int>, begin: nat, end: nat, a: seq<nat>, b: seq<nat>)
    requires begin <= end <= |v| && AreDraws(a, end - begin) && AreDraws(b, end - begin)
    requires forall i, j :: begin <= i < j < end ==> v[i] != v[j]
    requires Shuffle(v, begin, end, a) == Shuffle(v, begin, end, b)
    ensures a == b
    decreases end
  {
    hide Shuffle, Swap;
    if end - begin >= 2 {
      LastDrawn(v, begin, end, a);
      LastDrawn(v, begin, end, b);
      var k := begin + a[0];
      SwapDistinct(v, k, begin, end);
      DrawsAreUnique(Swap(v, k, end - 1), begin, end - 1, a[1..], b[1..]);
      assert a == [a[0]] + a[1..] && b == [b[0]] + b[1..];
    }
  }

  /** What ends up last is what the first draw picks. */
  lemma LastDrawn(v: seq<int>, begin: nat, end: nat, draws: seq<nat>)
    requires begin <= end <= |v| && AreDraws(draws, end - begin) && end - begin >= 2
    ensures draws[0] < end - begin && AreDraws(draws[1..], end - 1 - begin)
    ensures |Swap(v, begin + draws[0], end - 1)| == |v|
    ensures Shuffle(v, begin, end, draws) == Shuffle(Swap(v, begin + draws[0], end - 1), begin, end - 1, draws[1..])
    ensures Shuffle(v, begin, end, draws)[end - 1] == v[begin + draws[0]]
  {
    DrawsNext(draws, end - begin);
    ShuffleLeaves(Swap(v, begin + draws[0], end - 1), begin, end - 1, draws[1..], end - 1);
  }

  lemma SwapDistinct(v: seq<int>, k: nat, begin: nat, end: nat)
    requires begin <= k < end <= |v| && forall i, j :: begin <= i < j < end ==> v[i] != v[j]
    ensures var x := Swap(v, k, end - 1); |x| == |v| && forall i, j :: begin <= i < j < end - 1 ==> x[i] != x[j]
  {
  }

  // ---- the whole suite

  /** The draws for the tests of the first `k` cases. */
  function DrawsUsed(cases: seq<Case>, k: nat): nat
    requires k <= |cases|
  {
    if k == 0 then 0 else DrawsUsed(cases, k - 1) + DrawCount(|cases[k - 1].order|)
  }

  lemma {:induction false} StateLater(state: nat, a: nat, b: nat)
    ensures StateAfter(StateAfter(state, a), b) == StateAfter(state, a + b)
    decreases a
  {
    if a > 0 {
      StateLater(NextRandom(state), a - 1, b);
    }
  }

  /** A case with its tests shuffled by the draws from `state` on. */
  function CaseShuffled(state: nat, c: Case): Case {
    c.(order := Shuffle(c.order, 0, |c.order|, DrawsFrom(state, |c.order|)))
  }

  lemma {:induction false} CasesByDraws(state: nat, cases: seq<Case>, n: nat, k: nat)
    requires n <= |cases| && k < |cases|
    ensures ShuffledCases(state, cases, n).0[k] ==
      if k < n then CaseShuffled(StateAfter(state, DrawsUsed(cases, k)), cases[k]) else cases[k]
    ensures ShuffledCases(state, cases, n).1 == StateAfter(state, DrawsUsed(cases, n))
  {
    hide NextRandom, Shuffle, DrawsFrom, ShuffledRange, StateAfter, DrawCount;
    if n == 0 {
      NoDraws(state);
    } else {
      CasesByDraws(state, cases, n - 1, k);
      CasesByDraws(state, cases, n - 1, n - 1);
      var st, o := StateAfter(state, DrawsUsed(cases, n - 1)), cases[n - 1].order;
      ShuffledByDraws(st, o, 0, |o|);
      StateLater(state, DrawsUsed(cases, n - 1), DrawCount(|o|));
    }
  }

  lemma NoDraws(state: nat)
    ensures StateAfter(state, 0) == state
  {
  }

  /**
   * Shuffling the suite draws from one generator in turn: for the death test cases, for the other cases, and for the
   * tests of each case from the first to the last.
   */
  lemma SuiteByDraws(state: nat, s: Suite, k: nat)
    requires -1 <= s.lastDeath < |s.cases| == |s.order| && k < |s.cases|
    ensures
      var d, n, (r, end) := s.lastDeath + 1, |s.cases|, Shuffled(state, s);
      var a := DrawCount(d);
      var b := a + DrawCount(n - d);
      && r.order == Shuffle(Shuffle(s.order, 0, d, DrawsFrom(state, d)), d, n, DrawsFrom(StateAfter(state, a), n - d))
      && |r.cases| == n && r.lastDeath == s.lastDeath
      && r.cases[k] == CaseShuffled(StateAfter(state, b + DrawsUsed(s.cases, k)), s.cases[k])
      && end == StateAfter(state, b + DrawsUsed(s.cases, n))
  {
    hide NextRandom, Shuffle, DrawsFrom, ShuffledRange, ShuffledCases, StateAfter, DrawCount, CaseShuffled, DrawsUsed;
    var d, n := s.lastDeath + 1, |s.cases|;
    var a := DrawCount(d);
    var b := a + DrawCount(n - d);
    ShuffledByDraws(state, s.order, 0, d);
    ShuffledByDraws(StateAfter(state, a), ShuffledRange(state, s.order, 0, d).0, d, n);
    StateLater(state, a, DrawCount(n - d));
    CasesByDraws(StateAfter(state, b), s.cases, n, k);
    StateLater(state, b, DrawsUsed(s.cases, k));
    StateLater(state, b, DrawsUsed(s.cases, n));
  }

  // ---- the generator

  /** Its states from 0 on. */
  lemma FirstNumbers()
    ensures NextRandom(0) == 12345 && NextRandom(12345) == 1406932606
    ensures NextRandom(1406932606) == 654583775 && NextRandom(654583775) == 1449466924
  {
  }

  /** The state before. */
  function Previous(state: int): int {
    1857678181 * (state - 12345) % MAX_RANGE
  }

  /** The generator never comes from two states to the same one. */
  lemma NextIsReversible(state: nat)
    requires state < MAX_RANGE
    ensures Previous(NextRandom(state)) == state
  {
    var y := 1103515245 * state + 12345;
    var q, r := y / 0x1_0000_0000, y % 0x1_0000_0000;
    var p := r / MAX_RANGE;
    assert NextRandom(state) == y - 0x1_0000_0000 * q - MAX_RANGE * p;
    var t := 954594553 * state - 2 * 1857678181 * q - 1857678181 * p;
    QuotientIs(1857678181 * (NextRandom(state) - 12345), MAX_RANGE, t, state);
  }
}

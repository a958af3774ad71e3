/**
 * Vector clocks characterise causality: a run's clock ticks, the happened-before relation on them, and the theorem
 * that comparing timestamps decides it.
 */
module Causality {
  import opened VectorClocks

  /** What made a clock tick: a multicast, or the receipt of a message that `from` created when `sentAt` ticks had happened. */
  datatype Cause = Sending | Receiving(from: Id, sentAt: nat)

  /** One tick of the clock of `proc`, in run order, with the clock that results. */
  datatype Tick = Tick(proc: Id, cause: Cause, clock: Clock)

  type Trace = seq<Tick>

  /** The clock of `p` after the whole of `t`. */
  function Current(group: set<Id>, t: Trace, p: Id): Clock {
    if t == [] then Zero(group)
    else if t[|t| - 1].proc == p then t[|t| - 1].clock
    else Current(group, t[..|t| - 1], p)
  }

  /** How often the clock of `p` has ticked. */
  function Count(t: Trace, p: Id): nat {
    if t == [] then 0 else Count(t[..|t| - 1], p) + if t[|t| - 1].proc == p then 1 else 0
  }

  function Ticked(group: set<Id>, t: Trace, p: Id): Clock {
    Step(Current(group, t, p), p)
  }

  /** `x` is a possible next tick after `t`. */
  ghost predicate ValidTick(group: set<Id>, t: Trace, x: Tick) {
    && x.proc in group
    && match x.cause
       case Sending => x.clock == Ticked(group, t, x.proc)
       case Receiving(q, k) =>
         && q in group && q != x.proc && k <= |t|
         && x.clock == Update(Ticked(group, t, x.proc), Current(group, t[..k], q), x.proc)
  }

  ghost predicate ValidTrace(group: set<Id>, t: Trace) {
    forall i :: 0 <= i < |t| ==> ValidTick(group, t[..i], t[i])
  }

  /** Tick `c` immediately precedes tick `b`: same process earlier, or sent before the message `b` received was created. */
  predicate Edge(t: Trace, c: int, b: int)
    requires 0 <= b < |t|
  {
    && 0 <= c < b
    && (t[c].proc == t[b].proc || (t[b].cause.Receiving? && t[c].proc == t[b].cause.from && c < t[b].cause.sentAt))
  }

  /** Tick `a` is tick `b` or happened before it. */
  ghost predicate Causes(t: Trace, a: int, b: int)
    requires 0 <= b < |t|
    decreases b
  {
    a == b || exists c :: 0 <= c < b && Edge(t, c, b) && Causes(t, a, c)
  }

  /** Process `q` had a tick among the first `n` that `a` causes: `q` knows of `a` by then. */
  ghost predicate Knows(t: Trace, n: nat, q: Id, a: int)
    requires n <= |t|
  {
    exists c :: 0 <= c < n && t[c].proc == q && Causes(t, a, c)
  }

  lemma {:induction false} CurrentKeys(group: set<Id>, t: Trace, p: Id)
    requires ValidTrace(group, t) && p in group
    ensures Current(group, t, p).Keys == group
    ensures Current(group, t, p)[p] == Count(t, p)
  {
    if t != [] {
      var n := |t| - 1;
      ValidPrefix(group, t, n);
      assert ValidTick(group, t[..n], t[n]);
      CurrentKeys(group, t[..n], p);
    }
  }

  lemma ValidPrefix(group: set<Id>, t: Trace, n: nat)
    requires ValidTrace(group, t) && n <= |t|
    ensures ValidTrace(group, t[..n])
  {
    forall i | 0 <= i < n ensures ValidTick(group, t[..n][..i], t[..n][i]) {
      assert t[..n][..i] == t[..i];
    }
  }

  /** Counts only grow, and grow strictly over a tick of the process. */
  lemma {:induction false} CountGrows(t: Trace, m: nat, n: nat, p: Id)
    requires m <= n <= |t|
    ensures Count(t[..m], p) <= Count(t[..n], p)
    ensures m < n && t[n - 1].proc == p ==> Count(t[..m], p) < Count(t[..n], p)
    decreases n
  {
    if m < n {
      assert t[..n][..n - 1] == t[..n - 1];
      CountGrows(t, m, n - 1, p);
    }
  }

  /** Entry `x` of a tick's clock: one more than before for the own process, the maximum of what was known otherwise. */
  lemma TickEntry(group: set<Id>, t: Trace, b: nat, x: Id)
    requires ValidTrace(group, t) && b < |t| && x in group
    ensures x in Current(group, t[..b], t[b].proc) && x in t[b].clock
    ensures t[b].cause.Receiving? ==> t[b].cause.sentAt <= b && x in Current(group, t[..t[b].cause.sentAt], t[b].cause.from)
    ensures t[b].clock[x] ==
      var before := Current(group, t[..b], t[b].proc)[x];
      if x == t[b].proc then before + 1
      else if t[b].cause.Sending? then before
      else
        var theirs := Current(group, t[..t[b].cause.sentAt], t[b].cause.from)[x];
        if before < theirs then theirs else before
  {
    assert ValidTick(group, t[..b], t[b]);
    ValidPrefix(group, t, b);
    CurrentKeys(group, t[..b], t[b].proc);
    if t[b].cause.Receiving? {
      var k := t[b].cause.sentAt;
      assert t[..b][..k] == t[..k];
      ValidPrefix(group, t, k);
      CurrentKeys(group, t[..k], t[b].cause.from);
    }
  }

  /** The rank of tick `a` among the ticks of its process. */
  function Rank(t: Trace, a: nat): nat
    requires a < |t|
  {
    Count(t[..a + 1], t[a].proc)
  }

  lemma OwnEntry(group: set<Id>, t: Trace, a: nat)
    requires ValidTrace(group, t) && a < |t|
    ensures t[a].proc in group && t[a].proc in t[a].clock && t[a].clock[t[a].proc] == Rank(t, a)
  {
    ValidPrefix(group, t, a + 1);
    assert ValidTick(group, t[..a], t[a]);
    CurrentKeys(group, t[..a + 1], t[a].proc);
  }

  lemma {:induction false} CausesIsEarlier(t: Trace, a: int, b: nat)
    requires b < |t| && Causes(t, a, b)
    ensures a <= b
    decreases b
  {
    if a != b {
      var c :| 0 <= c < b && Edge(t, c, b) && Causes(t, a, c);
      CausesIsEarlier(t, a, c);
    }
  }

  /** What the process of tick `b` knows after it, from what the two sources of `b` knew. */
  lemma CausesUnfolds(t: Trace, a: int, b: nat)
    requires b < |t|
    requires t[b].cause.Receiving? ==> t[b].cause.sentAt <= b
    ensures Causes(t, a, b) <==>
      || a == b
      || Knows(t, b, t[b].proc, a)
      || (t[b].cause.Receiving? && Knows(t, t[b].cause.sentAt, t[b].cause.from, a))
  {
    if Knows(t, b, t[b].proc, a) {
      var c :| 0 <= c < b && t[c].proc == t[b].proc && Causes(t, a, c);
      assert Edge(t, c, b);
    }
    if t[b].cause.Receiving? && Knows(t, t[b].cause.sentAt, t[b].cause.from, a) {
      var c :| 0 <= c < t[b].cause.sentAt && t[c].proc == t[b].cause.from && Causes(t, a, c);
      assert Edge(t, c, b);
    }
  }

  lemma KnowsUnfolds(t: Trace, n: nat, q: Id, a: int)
    requires 0 < n <= |t|
    ensures t[n - 1].proc != q ==> (Knows(t, n, q, a) <==> Knows(t, n - 1, q, a))
    ensures t[n - 1].proc == q ==> (Knows(t, n, q, a) <==> Causes(t, a, n - 1))
  {
    if t[n - 1].proc == q && Knows(t, n, q, a) {
      var c :| 0 <= c < n && t[c].proc == q && Causes(t, a, c);
      assert c < n - 1 ==> Edge(t, c, n - 1);
    }
  }

  lemma CausesItself(t: Trace, a: nat)
    requires a < |t|
    ensures Causes(t, a, a)
  {
  }

  lemma EdgeCauses(t: Trace, a: nat, b: nat)
    requires b < |t| && Edge(t, a, b)
    ensures Causes(t, a, b)
  {
    assert Causes(t, a, a);
  }

  /** A later tick of the same process has the higher rank. */
  lemma RankOrder(t: Trace, a: nat, b: nat)
    requires a < |t| && b < |t| && t[a].proc == t[b].proc
    ensures Rank(t, b) >= Rank(t, a) <==> Causes(t, a, b)
  {
    hide Count, Causes;
    if a < b {
      CountGrows(t, a + 1, b + 1, t[a].proc);
      EdgeCauses(t, a, b);
    } else if a == b {
      CausesItself(t, a);
    } else {
      CountGrows(t, b + 1, a + 1, t[a].proc);
      if Causes(t, a, b) {
        CausesIsEarlier(t, a, b);
      }
    }
  }

  /** The knowledge a tick of another process adds is what its two sources knew. */
  lemma EntryAtTick(group: set<Id>, t: Trace, b: nat, a: nat)
    requires ValidTrace(group, t) && b < |t| && a < |t| && t[a].proc in group && t[a].proc != t[b].proc
    requires t[a].proc in Current(group, t[..b], t[b].proc)
    requires Current(group, t[..b], t[b].proc)[t[a].proc] >= Rank(t, a) <==> Knows(t, b, t[b].proc, a)
    requires t[b].cause.Receiving? ==>
      var k, r := t[b].cause.sentAt, t[b].cause.from;
      k <= b && t[a].proc in Current(group, t[..k], r)
      && (Current(group, t[..k], r)[t[a].proc] >= Rank(t, a) <==> Knows(t, k, r, a))
    ensures t[a].proc in t[b].clock
    ensures t[b].clock[t[a].proc] >= Rank(t, a) <==> Causes(t, a, b)
  {
    TickEntry(group, t, b, t[a].proc);
    CausesUnfolds(t, a, b);
  }

  /** The heart of it: a clock entry reaches the rank of a tick exactly when the process knows of the tick. */
  lemma {:induction false} EntryMeansKnowledge(group: set<Id>, t: Trace, n: nat, q: Id, a: nat)
    requires ValidTrace(group, t) && n <= |t| && a < |t| && q in group
    ensures t[a].proc in group && t[a].proc in Current(group, t[..n], q)
    ensures Current(group, t[..n], q)[t[a].proc] >= Rank(t, a) <==> Knows(t, n, q, a)
    decreases n
  {
    hide Current, Count, Rank, Causes, Knows, ValidTrace;
    OwnEntry(group, t, a);
    if n == 0 {
      NothingKnown(group, t, q, a);
    } else {
      var b := n - 1;
      CurrentUnfolds(group, t, n, q);
      KnowsUnfolds(t, n, q, a);
      EntryMeansKnowledge(group, t, b, q, a);
      if t[b].proc == q {
        if t[a].proc == q {
          OwnEntry(group, t, b);
          RankOrder(t, a, b);
        } else {
          ReceiptFacts(group, t, b);
          if t[b].cause.Receiving? {
            EntryMeansKnowledge(group, t, t[b].cause.sentAt, t[b].cause.from, a);
          }
          EntryAtTick(group, t, b, a);
        }
      }
    }
  }

  lemma CurrentUnfolds(group: set<Id>, t: Trace, n: nat, q: Id)
    requires 0 < n <= |t|
    ensures Current(group, t[..n], q) == if t[n - 1].proc == q then t[n - 1].clock else Current(group, t[..n - 1], q)
  {
    assert t[..n][..n - 1] == t[..n - 1];
  }

  lemma NothingKnown(group: set<Id>, t: Trace, q: Id, a: nat)
    requires a < |t| && t[a].proc in group
    ensures t[a].proc in Current(group, t[..0], q)
    ensures Current(group, t[..0], q)[t[a].proc] < Rank(t, a) && !Knows(t, 0, q, a)
  {
    hide Causes;
    CountGrows(t, 0, a + 1, t[a].proc);
  }

  lemma ReceiptFacts(group: set<Id>, t: Trace, b: nat)
    requires ValidTrace(group, t) && b < |t|
    ensures t[b].cause.Receiving? ==> t[b].cause.from in group && t[b].cause.sentAt <= b
  {
    assert ValidTick(group, t[..b], t[b]);
  }

  /** Tick `a` is or happened before tick `b` exactly when the clock of `b` covers the rank of `a`. */
  lemma ClockDecidesCausality(group: set<Id>, t: Trace, a: nat, b: nat)
    requires ValidTrace(group, t) && a < |t| && b < |t|
    ensures t[a].proc in t[a].clock && t[a].proc in t[b].clock
    ensures Causes(t, a, b) <==> t[a].clock[t[a].proc] <= t[b].clock[t[a].proc]
  {
    OwnEntry(group, t, a);
    OwnEntry(group, t, b);
    EntryMeansKnowledge(group, t, b + 1, t[b].proc, a);
    KnowsUnfolds(t, b + 1, t[b].proc, a);
    assert t[..b + 1][..b] == t[..b];
  }

  lemma {:induction false} CausesTransitive(t: Trace, a: int, b: nat, c: nat)
    requires b < |t| && c < |t| && Causes(t, a, b) && Causes(t, b, c)
    ensures Causes(t, a, c)
    decreases c
  {
    if b != c {
      var d :| 0 <= d < c && Edge(t, d, c) && Causes(t, b, d);
      CausesTransitive(t, a, b, d);
    }
  }

  /** The tick of `x` of rank `v`. */
  lemma {:induction false} TickOfRank(t: Trace, n: nat, x: Id, v: nat) returns (e: nat)
    requires n <= |t| && 0 < v <= Count(t[..n], x)
    ensures e < n && t[e].proc == x && Rank(t, e) == v
    decreases n
  {
    assert t[..n][..n - 1] == t[..n - 1];
    if t[n - 1].proc == x && v == Count(t[..n], x) {
      e := n - 1;
    } else {
      e := TickOfRank(t, n - 1, x, v);
    }
  }

  /** Nobody's entry for `x` exceeds the number of times the clock of `x` has ticked. */
  lemma {:induction false} EntryBounded(group: set<Id>, t: Trace, q: Id, x: Id)
    requires ValidTrace(group, t) && q in group && x in group
    ensures x in Current(group, t, q) && 0 <= Current(group, t, q)[x] <= Count(t, x)
    decreases |t|
  {
    CurrentKeys(group, t, q);
    if t != [] {
      var b := |t| - 1;
      ValidPrefix(group, t, b);
      EntryBounded(group, t[..b], q, x);
      if t[b].proc == q {
        TickEntry(group, t, b, x);
        CurrentKeys(group, t[..b], q);
        if t[b].cause.Receiving? {
          assert ValidTick(group, t[..b], t[b]);
          var k := t[b].cause.sentAt;
          ValidPrefix(group, t, k);
          EntryBounded(group, t[..k], t[b].cause.from, x);
          CountGrows(t, k, b, x);
        }
      }
    }
  }

  lemma TickBounded(group: set<Id>, t: Trace, a: nat, x: Id)
    requires ValidTrace(group, t) && a < |t| && x in group
    ensures x in t[a].clock && 0 <= t[a].clock[x] <= Count(t[..a + 1], x)
  {
    ValidPrefix(group, t, a + 1);
    assert ValidTick(group, t[..a], t[a]);
    EntryBounded(group, t[..a + 1], t[a].proc, x);
  }

  /** What happened before is known entry by entry. */
  lemma ClockDominates(group: set<Id>, t: Trace, a: nat, b: nat, x: Id)
    requires ValidTrace(group, t) && a < |t| && b < |t| && Causes(t, a, b) && x in group
    ensures x in t[a].clock && x in t[b].clock && t[a].clock[x] <= t[b].clock[x]
  {
    hide ValidTrace, Causes, Rank, Count;
    TickBounded(group, t, a, x);
    TickBounded(group, t, b, x);
    var v := t[a].clock[x];
    if v > 0 {
      var e := TickOfRank(t, a + 1, x, v);
      OwnEntry(group, t, e);
      ClockDecidesCausality(group, t, e, a);
      CausesTransitive(t, e, a, b);
      ClockDecidesCausality(group, t, e, b);
    }
  }

  /** For two different ticks the comparison answers BEFORE exactly when the first happened before the second. */
  lemma BeforeIsHappenedBefore(group: set<Id>, t: Trace, a: nat, b: nat)
    requires ValidTrace(group, t) && a < |t| && b < |t|
    ensures Relation(t[a].clock, t[b].clock) == BEFORE <==> a != b && Causes(t, a, b)
  {
    var ca, cb := t[a].clock, t[b].clock;
    ClockKeys(group, t, a);
    ClockKeys(group, t, b);
    ClockDecidesCausality(group, t, a, b);
    if a != b && Causes(t, a, b) {
      forall x | x in ca ensures ca[x] <= Get(cb, x) { ClockDominates(group, t, a, b, x); }
      ClockDecidesCausality(group, t, b, a);
      if Causes(t, b, a) {
        CausesIsEarlier(t, a, b);
        CausesIsEarlier(t, b, a);
      }
      assert ca[t[b].proc] < Get(cb, t[b].proc);
      assert SomeLess(ca, cb) && !SomeGreater(ca, cb);
    }
    if Relation(ca, cb) == BEFORE {
      assert !(ca[t[a].proc] > Get(cb, t[a].proc));
    }
  }

  lemma ClockKeys(group: set<Id>, t: Trace, a: nat)
    requires ValidTrace(group, t) && a < |t|
    ensures t[a].clock.Keys == group
  {
    assert ValidTick(group, t[..a], t[a]);
    ValidPrefix(group, t, a + 1);
    CurrentKeys(group, t[..a + 1], t[a].proc);
  }

  /** AFTER is the converse of BEFORE. */
  lemma RelationConverse(a: Clock, b: Clock)
    requires a.Keys == b.Keys
    ensures Relation(a, b) == AFTER <==> Relation(b, a) == BEFORE
  {
    assert SomeLess(a, b) <==> SomeGreater(b, a);
    assert SomeGreater(a, b) <==> SomeLess(b, a);
  }
}

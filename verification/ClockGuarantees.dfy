/** What timestamps of multicasts tell, over every run, and what one pass over the undelivered messages achieves. */
module ClockGuarantees {
  import opened VectorClocks
  import opened Ordering
  import opened Causality
  import opened Handlers
  import opened Network
  import opened Invariance
  import opened Reliability

  /** `m` is one of the multicasts of the run so far. */
  predicate IsMulticast(s: System, m: Message) {
    m in s.born && m.kind == MESSAGE
  }

  lemma MulticastFacts(s: System, m: Message)
    requires Inv(s) && IsMulticast(s, m)
    ensures ValidTrace(s.group, s.trace)
    ensures 0 < s.born[m] <= |s.trace| && s.trace[s.born[m] - 1] == Tick(m.sender, Sending, m.clock)
  {
    hide SentNumbered, NetOk, AcksSound, LogsArePrefixes, NothingLost, AllGenuine, Stores, KindOk, AcksBelow, ValidTrace;
    GenuineOf(s, m);
  }

  /** The tick at which a multicast was sent. */
  function SentAt(s: System, m: Message): int
    requires m in s.born
  {
    var n: int := s.born[m];
    n - 1
  }

  /** Comparing the timestamps of two multicasts answers BEFORE exactly when the one happened before the other. */
  lemma TimestampsDecideCausality(v: Variant, group: set<Id>, run: seq<Event>, m1: Message, m2: Message)
    requires IsRun(v, group, run)
    requires IsMulticast(After(v, group, run), m1) && IsMulticast(After(v, group, run), m2)
    ensures
      var s := After(v, group, run);
      && 0 <= SentAt(s, m1) < |s.trace| && 0 <= SentAt(s, m2) < |s.trace|
      && (Relation(m1.clock, m2.clock) == BEFORE
          <==> SentAt(s, m1) != SentAt(s, m2) && Causes(s.trace, SentAt(s, m1), SentAt(s, m2)))
      && (Relation(m1.clock, m2.clock) == AFTER
          <==> SentAt(s, m1) != SentAt(s, m2) && Causes(s.trace, SentAt(s, m2), SentAt(s, m1)))
  {
    hide Inv, ValidTrace, Relation, IsRun, After, Causes;
    var s := After(v, group, run);
    RunInv(v, group, run);
    MulticastFacts(s, m1);
    MulticastFacts(s, m2);
    BeforeIsHappenedBefore(s.group, s.trace, SentAt(s, m1), SentAt(s, m2));
    BeforeIsHappenedBefore(s.group, s.trace, SentAt(s, m2), SentAt(s, m1));
    ClockKeys(s.group, s.trace, SentAt(s, m1));
    ClockKeys(s.group, s.trace, SentAt(s, m2));
    RelationConverse(m1.clock, m2.clock);
  }

  /** A process that has multicast or received `m1` stamps its later multicasts AFTER it. */
  lemma ReceivedThenSent(v: Variant, group: set<Id>, run: seq<Event>, m1: Message, m2: Message, c: nat)
    requires IsRun(v, group, run)
    requires IsMulticast(After(v, group, run), m1) && IsMulticast(After(v, group, run), m2)
    requires c < SentAt(After(v, group, run), m2) && c < |After(v, group, run).trace|
    requires
      var s := After(v, group, run);
      && s.trace[c].proc == m2.sender
      && (c == SentAt(s, m1) || s.trace[c].cause == Receiving(m1.sender, s.born[m1]))
    ensures Relation(m1.clock, m2.clock) == BEFORE
  {
    hide Inv, ValidTrace, Relation, IsRun, After;
    var s := After(v, group, run);
    RunInv(v, group, run);
    MulticastFacts(s, m1);
    MulticastFacts(s, m2);
    var a, b := SentAt(s, m1), SentAt(s, m2);
    assert Edge(s.trace, c, b) && Causes(s.trace, a, a);
    if c != a {
      ReceiptFacts(s.group, s.trace, c);
      assert Edge(s.trace, a, c);
    }
    assert Causes(s.trace, a, c);
    CausesIsEarlier(s.trace, a, c);
    BeforeIsHappenedBefore(s.group, s.trace, a, b);
  }

  /** Timestamps never contradict the order of a run: what was multicast earlier is never AFTER. */
  lemma NeverBackwards(v: Variant, group: set<Id>, run: seq<Event>, m1: Message, m2: Message)
    requires IsRun(v, group, run)
    requires IsMulticast(After(v, group, run), m1) && IsMulticast(After(v, group, run), m2)
    requires After(v, group, run).born[m1] <= After(v, group, run).born[m2]
    ensures Relation(m2.clock, m1.clock) != BEFORE
  {
    hide Inv, ValidTrace, Relation, IsRun, After, Causes;
    var s := After(v, group, run);
    TimestampsDecideCausality(v, group, run, m2, m1);
    if Causes(s.trace, SentAt(s, m2), SentAt(s, m1)) {
      CausesIsEarlier(s.trace, SentAt(s, m2), SentAt(s, m1));
    }
  }

  /** On receipt the own entry of the incoming timestamp is behind, so a process never resets a failure timer for itself. */
  lemma OwnDeltaIsNegative(v: Variant, group: set<Id>, run: seq<Event>, k: Packet)
    requires IsRun(v, group, run) && k in After(v, group, run).net
    ensures k.dest in After(v, group, run).procs
    ensures
      var c := Step(After(v, group, run).procs[k.dest].clock, k.dest);
      k.dest in Diff(c, k.msg.clock) && Diff(c, k.msg.clock)[k.dest] < 0
  {
    hide Inv;
    var s := After(v, group, run);
    RunInv(v, group, run);
    PacketFacts(s, k);
    ClockFacts(s, k.dest, k.msg);
  }

  lemma ClockFacts(s: System, p: Id, m: Message)
    requires Inv(s) && p in s.group && m in s.born && Genuine(s, m)
    ensures p in s.procs && p in s.procs[p].clock && Get(m.clock, p) <= s.procs[p].clock[p]
  {
    hide SentNumbered, NetOk, AcksSound, LogsArePrefixes, NothingLost, AllGenuine, Stores, KindOk, AcksBelow;
    var t, b := s.trace, s.born[m];
    CurrentKeys(s.group, t, p);
    ValidPrefix(s.group, t, b);
    EntryBounded(s.group, t[..b], m.sender, p);
    CountGrows(t, b, |t|, p);
    assert t[..|t|] == t;
  }

  // ---- one pass over the undelivered messages

  /** In whatever order the messages come, a sender advances by consecutive numbers, each taken from the list. */
  lemma {:induction false} PassIsConsecutive(p: Proc, order: seq<Message>, q: Id, i: int)
    requires Get(p.last, q) < i <= Get(DeliverInOrder(p, order).last, q)
    ensures exists m :: m in order && Matches(m, q, i)
    decreases |order|
  {
    var prefix, x := order[..|order| - 1], order[|order| - 1];
    if i <= Get(DeliverInOrder(p, prefix).last, q) {
      PassIsConsecutive(p, prefix, q, i);
      var m :| m in prefix && Matches(m, q, i);
      assert m in order;
    } else {
      assert x in order && Matches(x, q, i);
    }
  }

  lemma {:induction false} PassGrows(p: Proc, order: seq<Message>, n: nat, q: Id)
    requires n <= |order|
    ensures Get(DeliverInOrder(p, order[..n]).last, q) <= Get(DeliverInOrder(p, order).last, q)
    decreases |order| - n
  {
    if n < |order| {
      assert order[..n + 1][..n] == order[..n];
      PassGrows(p, order, n + 1, q);
    } else {
      assert order[..n] == order;
    }
  }

  /** In whatever order the messages come, a sender whose next message is in the list advances by at least one. */
  lemma PassMakesProgress(p: Proc, order: seq<Message>, m: Message)
    requires m in order && m.number == Get(p.last, m.sender) + 1
    ensures Get(DeliverInOrder(p, order).last, m.sender) >= m.number
  {
    var j :| 0 <= j < |order| && order[j] == m;
    PassGrows(p, order[..j], 0, m.sender);
    assert order[..j][..0] == [];
    assert order[..j + 1][..j] == order[..j];
    PassGrows(p, order, j + 1, m.sender);
  }

  /** If the messages of `q` come in ascending order, all of its contiguous run is delivered. */
  lemma {:induction false} AscendingPassDrains(p: Proc, order: seq<Message>, q: Id)
    requires forall i, j :: 0 <= i < j < |order| && order[i].sender == q && order[j].sender == q ==>
      order[i].number < order[j].number
    ensures forall m :: m in order && m.sender == q ==> m.number != Get(DeliverInOrder(p, order).last, q) + 1
    decreases |order|
  {
    if order != [] {
      var prefix, x := order[..|order| - 1], order[|order| - 1];
      AscendingPassDrains(p, prefix, q);
      forall m | m in order && m.sender == q ensures m.number != Get(DeliverInOrder(p, order).last, q) + 1 {
        var i :| 0 <= i < |order| && order[i] == m;
        if i < |prefix| {
          assert m in prefix;
          assert x.sender == q ==> m.number < x.number;
        }
      }
    }
  }
}

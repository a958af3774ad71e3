/** What the multicast guarantees over every run: loss, duplication, reordering, retransmission and crashes included. */
module Guarantees {
  import opened VectorClocks
  import opened Ordering
  import opened Causality
  import opened Handlers
  import opened Network
  import opened Invariance
  import opened Casting
  import opened Reliability
  import Decimal

  // ---- FIFO prefix delivery

  /** What `q` multicast during `run`, in order. */
  function Texts(run: seq<Event>, q: Id): seq<string> {
    if run == [] then []
    else
      var e := run[|run| - 1];
      Texts(run[..|run| - 1], q) + if e.Multicasts? && e.p == q then [e.text] else []
  }

  lemma SentStep(v: Variant, s: System, e: Event, q: Id)
    requires Shape(s) && Enabled(v, s, e) && q in s.group
    ensures q in Apply(v, s, e).sent
    ensures Bodies(Apply(v, s, e).sent[q]) == Bodies(s.sent[q]) + if e.Multicasts? && e.p == q then [e.text] else []
  {
    hide HandleReceive, Beat, SendTo, ChoiceOk, Register, ProcShape;
    if e.Multicasts? && e.p == q {
      var ms := Apply(v, s, e).sent[q];
      assert ms[..|ms| - 1] == s.sent[q];
    }
  }

  lemma {:induction false} SentAreTexts(v: Variant, group: set<Id>, run: seq<Event>, q: Id)
    requires IsRun(v, group, run) && q in group
    ensures q in After(v, group, run).sent && Bodies(After(v, group, run).sent[q]) == Texts(run, q)
  {
    hide Inv, Enabled, Apply;
    if run != [] {
      var before := run[..|run| - 1];
      SentAreTexts(v, group, before, q);
      RunInv(v, group, before);
      ShapeOf(After(v, group, before));
      SentStep(v, After(v, group, before), run[|run| - 1], q);
    }
  }

  lemma ShapeOf(s: System)
    requires Inv(s)
    ensures Shape(s) && s.procs.Keys == s.sent.Keys == s.group
  {
    hide Clocks, SentNumbered, NetOk, AcksSound, LogsArePrefixes, NothingLost, AllGenuine, Stores, ProcShape;
  }

  lemma {:induction false} BodiesPrefix(ms: seq<Message>, n: nat)
    requires n <= |ms|
    ensures Bodies(ms[..n]) <= Bodies(ms)
    decreases |ms| - n
  {
    if n < |ms| {
      BodiesAppend(ms, n);
      BodiesPrefix(ms, n + 1);
    } else {
      assert ms[..n] == ms;
    }
  }

  /**
   * Each process's delivery log, restricted to one sender, is a prefix of what that sender multicast; a sender has
   * delivered all of its own; nothing is delivered from outside the group.
   */
  lemma FifoPrefixDelivery(v: Variant, group: set<Id>, run: seq<Event>, p: Id, q: Id)
    requires IsRun(v, group, run) && p in group && q in group
    ensures p in After(v, group, run).procs
    ensures From(After(v, group, run).procs[p].log, q) <= Texts(run, q)
    ensures p == q ==> From(After(v, group, run).procs[p].log, p) == Texts(run, p)
    ensures SourcesIn(After(v, group, run).procs[p].log, group)
  {
    hide Inv;
    var s := After(v, group, run);
    RunInv(v, group, run);
    SentAreTexts(v, group, run, q);
    LogFacts(s, p, q);
    BodiesPrefix(s.sent[q], Delivered(s, p, q));
    if p == q {
      assert s.sent[q][..Delivered(s, p, q)] == s.sent[q];
    }
  }

  lemma LogFacts(s: System, p: Id, q: Id)
    requires Inv(s) && p in s.group && q in s.group
    ensures s.procs.Keys == s.sent.Keys == s.group && LogIsPrefix(s, p, q)
    ensures Delivered(s, p, p) == |s.sent[p]|
  {
    hide Clocks, SentNumbered, NetOk, AcksSound, NothingLost, AllGenuine, Stores, LogIsPrefix;
    assert LogIsPrefix(s, p, q);
  }

  lemma TraceOk(s: System)
    requires Inv(s)
    ensures ValidTrace(s.group, s.trace)
  {
    hide SentNumbered, NetOk, AcksSound, LogsArePrefixes, NothingLost, AllGenuine, Stores, ValidTrace;
  }

  // ---- safe garbage collection and retransmission

  lemma LostFacts(s: System, p: Id, q: Id, i: int)
    requires Inv(s) && p in s.group && q in s.group && 1 <= i <= Delivered(s, p, q)
    ensures s.procs.Keys == s.group && Safe(s, p, q, i)
  {
    hide Clocks, SentNumbered, NetOk, AcksSound, LogsArePrefixes, AllGenuine, Stores, Safe;
    assert Safe(s, p, q, i);
  }

  /** A delivered message that is no longer stored has been delivered by every member. */
  lemma SafeGarbageCollection(v: Variant, group: set<Id>, run: seq<Event>, p: Id, q: Id, i: int, r: Id)
    requires IsRun(v, group, run) && p in group && q in group && r in group
    requires p in After(v, group, run).procs && 1 <= i <= After(v, group, run).procs[p].Delivered(q)
    requires !HasStored(After(v, group, run).procs[p], q, i)
    ensures r in After(v, group, run).procs && i <= After(v, group, run).procs[r].Delivered(q)
  {
    hide Inv;
    RunInv(v, group, run);
    LostFacts(After(v, group, run), p, q, i);
  }

  /** While a member lacks a message, every process that delivered it stores exactly what its sender multicast. */
  lemma StillStored(s: System, p: Id, q: Id, i: int, r: Id)
    requires Inv(s) && p in s.group && q in s.group && r in s.group
    requires 1 <= i <= Delivered(s, p, q) && Delivered(s, r, q) < i
    ensures q in s.sent && i <= |s.sent[q]| && s.sent[q][i - 1] in s.procs[p].store
    ensures Matches(s.sent[q][i - 1], q, i)
    ensures forall m :: m in s.procs[p].store && Matches(m, q, i) ==> m == s.sent[q][i - 1]
  {
    hide Inv;
    ShapeOf(s);
    LostFacts(s, p, q, i);
    forall m | m in s.procs[p].store && Matches(m, q, i)
      ensures i <= |s.sent[q]| && m == s.sent[q][i - 1]
    {
      StoredAreSent(s, p, m);
    }
  }

  lemma StoredAreSent(s: System, p: Id, m: Message)
    requires Inv(s) && p in s.group && m in s.procs[p].store
    ensures s.procs.Keys == s.sent.Keys == s.group && m.sender in s.group
    ensures 1 <= m.number <= |s.sent[m.sender]| && s.sent[m.sender][m.number - 1] == m
  {
    hide Clocks, SentNumbered, NetOk, AcksSound, LogsArePrefixes, NothingLost, AllGenuine, Stores, ProcShape;
    StoredIsGenuine(s, s.procs[p], m);
  }

  /**
   * A request is answered exactly if its message is stored and the asker is not believed to have failed, and then with
   * what the sender multicast.
   */
  lemma RequestIsAnsweredIff(v: Variant, s: System, k: Packet, c: Choice, q: Id)
    requires Inv(s) && Enabled(v, s, Receives(k, c)) && k.msg.kind == RETRANSREQUEST && q in s.group
    requires Decimal.Parse(k.msg.body) == Decimal.Number(q)
    ensures k.dest in s.procs && q in s.sent
    ensures HasStored(s.procs[k.dest], q, k.msg.number) ==> 1 <= k.msg.number <= |s.sent[q]|
    ensures HandleReceive(v, s.procs[k.dest], k.msg, c).1
      == if HasStored(s.procs[k.dest], q, k.msg.number) && k.msg.sender !in Learn(v, s.procs[k.dest], k.msg).failed
         then {Packet(k.dest, k.msg.sender, s.sent[q][k.msg.number - 1])} else {}
  {
    hide Inv, Learn, KindOk, Genuine, ProcShape;
    PacketFacts(s, k);
    var p1 := Learn(v, s.procs[k.dest], k.msg);
    LearnFacts(v, s.procs[k.dest], k.msg);
    if c.found.Stored? {
      StoredAreSent(s, k.dest, c.found.msg);
      assert Matches(c.found.msg, q, k.msg.number);
      assert SendTo(p1, {k.msg.sender}, c.found.msg)
        == if k.msg.sender in p1.failed then {} else {Packet(k.dest, k.msg.sender, c.found.msg)};
    }
  }

  /**
   * While some member lacks a message, a request for it that arrives at a process that delivered it is answered, unless
   * the asker is believed to have failed.
   */
  lemma RequestIsServed(v: Variant, s: System, k: Packet, c: Choice, q: Id, r: Id)
    requires Inv(s) && Enabled(v, s, Receives(k, c)) && k.msg.kind == RETRANSREQUEST && q in s.group && r in s.group
    requires Decimal.Parse(k.msg.body) == Decimal.Number(q)
    requires k.dest in s.procs && r in s.procs
    requires 1 <= k.msg.number <= Delivered(s, k.dest, q) && Delivered(s, r, q) < k.msg.number
    requires k.msg.sender !in Learn(v, s.procs[k.dest], k.msg).failed
    ensures q in s.sent && k.msg.number <= |s.sent[q]|
    ensures Packet(k.dest, k.msg.sender, s.sent[q][k.msg.number - 1]) in Apply(v, s, Receives(k, c)).net
  {
    hide Inv, Learn, Register, HandleReceive, ChoiceOk;
    PacketFacts(s, k);
    StillStored(s, k.dest, q, k.msg.number, r);
    RequestIsAnsweredIff(v, s, k, c, q);
    assert HasStored(s.procs[k.dest], q, k.msg.number);
  }

  // ---- acknowledgement soundness

  /** What any process has recorded of another, and what any message in any packet or store acknowledges, is delivered. */
  lemma AcknowledgementsAreSound(v: Variant, group: set<Id>, run: seq<Event>, q: Id, k: Id)
    requires IsRun(v, group, run) && q in group && k in group
    ensures
      var s := After(v, group, run);
      && s.procs.Keys == group
      && (forall p :: p in group && p != q ==> s.procs[p].Reported(q, k) <= s.procs[q].Delivered(k))
      && (forall x :: x in s.net && x.msg.sender == q ==> Get(x.msg.acks, k) <= s.procs[q].Delivered(k))
      && (forall p, m :: p in group && m in s.procs[p].store && m.sender == q ==> Get(m.acks, k) <= s.procs[q].Delivered(k))
  {
    hide Inv;
    var s := After(v, group, run);
    RunInv(v, group, run);
    ShapeOf(s);
    forall p | p in group && p != q ensures s.procs[p].Reported(q, k) <= s.procs[q].Delivered(k) { AckFact(s, p, q, k); }
    forall x | x in s.net && x.msg.sender == q ensures Get(x.msg.acks, k) <= s.procs[q].Delivered(k) {
      PacketFacts(s, x);
      MessageAckFact(s, x.msg, k);
    }
    forall p, m | p in group && m in s.procs[p].store && m.sender == q ensures Get(m.acks, k) <= s.procs[q].Delivered(k) {
      StoredBorn(s, p, m);
      MessageAckFact(s, m, k);
    }
  }

  lemma AckFact(s: System, p: Id, q: Id, k: Id)
    requires Inv(s) && p in s.group && q in s.group && p != q && k in s.group
    ensures s.procs.Keys == s.group && s.procs[p].Reported(q, k) <= Delivered(s, q, k)
  {
    hide Clocks, SentNumbered, NetOk, LogsArePrefixes, NothingLost, AllGenuine, Stores;
    assert AckSound(s, p, q, k);
  }

  lemma MessageAckFact(s: System, m: Message, k: Id)
    requires Inv(s) && m in s.born && k in s.group
    ensures m.sender in s.procs && Get(m.acks, k) <= Delivered(s, m.sender, k)
  {
    hide Clocks, SentNumbered, NetOk, AcksSound, LogsArePrefixes, NothingLost, AllGenuine, Stores, KindOk, Stamped;
    GenuineOf(s, m);
  }

  lemma StoredBorn(s: System, p: Id, m: Message)
    requires Inv(s) && p in s.procs && m in s.procs[p].store
    ensures m in s.born
  {
    hide Clocks, SentNumbered, NetOk, AcksSound, LogsArePrefixes, NothingLost, AllGenuine;
    assert StoreOk(s, s.procs[p]);
  }

  /** Recorded acknowledgements and deliveries never decrease, whatever happens. */
  lemma NothingIsTakenBack(v: Variant, s: System, e: Event, p: Id, q: Id, k: Id)
    requires Inv(s) && Enabled(v, s, e) && p in s.group && q in s.group && k in s.group
    ensures s.procs.Keys == s.group && p in Apply(v, s, e).procs
    ensures s.procs[p].Delivered(k) <= Apply(v, s, e).procs[p].Delivered(k)
    ensures s.procs[p].Reported(q, k) <= Apply(v, s, e).procs[p].Reported(q, k)
  {
    hide Inv, SendTo, Register, Contents, ChoiceOk, HandleReceive, ProcShape;
    match e
    case Multicasts(a, _) => InvShape(s, a);
    case Beats(a) => InvShape(s, a);
    case Receives(x, c) =>
      InvShape(s, x.dest);
      ReceiveGrows(v, s.procs[x.dest], x.msg, c, q, k);
    case Suspects(a, _) => InvShape(s, a);
    case Crashes(a) => InvShape(s, a);
  }

  lemma ReceiveGrows(v: Variant, p: Proc, m: Message, c: Choice, q: Id, k: Id)
    ensures p.Delivered(k) <= HandleReceive(v, p, m, c).0.Delivered(k)
    ensures p.Reported(q, k) <= HandleReceive(v, p, m, c).0.Reported(q, k)
    ensures HandleReceive(v, p, m, c).0.id == p.id
  {
    hide SendTo, RequestPackets, Wants, AlreadyReceived, Learn;
    LearnGrows(v, p, m, q, k);
    DeliverKeeps(Keep(Learn(v, p, m), m), c.order);
    DeliverGrows(Keep(Learn(v, p, m), m), c.order, k);
  }

  lemma LearnGrows(v: Variant, p: Proc, m: Message, q: Id, k: Id)
    ensures
      var p1 := Learn(v, p, m);
      p1.id == p.id && p1.number == p.number && p1.last == p.last && p.Reported(q, k) <= p1.Reported(q, k)
  {
    hide Update, Step;
  }

  lemma {:induction false} DeliverGrows(p: Proc, order: seq<Message>, k: Id)
    ensures Get(p.last, k) <= Get(DeliverInOrder(p, order).last, k)
    decreases |order|
  {
    if order != [] {
      DeliverGrows(p, order[..|order| - 1], k);
    }
  }

  // ---- retransmission requests

  /** The assertion in retransmissionRequests never fires, in either variant. */
  lemma AssertionNeverFires(v: Variant, group: set<Id>, run: seq<Event>, k: Packet, c: Choice)
    requires IsRun(v, group, run) && Enabled(v, After(v, group, run), Receives(k, c))
    ensures k.dest in After(v, group, run).procs && AssertionsHold(v, After(v, group, run).procs[k.dest], k.msg)
  {
    hide Inv;
    RunInv(v, group, run);
    AskedForIsKnown(v, After(v, group, run), k);
  }

  lemma AskedForIsKnown(v: Variant, s: System, k: Packet)
    requires Inv(s) && k in s.net
    ensures k.dest in s.procs && AssertionsHold(v, s.procs[k.dest], k.msg)
  {
    hide Inv, Learn, Wants, AlreadyReceived, KindOk, Genuine, ProcShape, PacketOk;
    PacketFacts(s, k);
    AfterLearningInv(v, s, k);
    var p1 := Learn(v, s.procs[k.dest], k.msg);
    LearnFacts(v, s.procs[k.dest], k.msg);
    if k.msg.kind != RETRANSREQUEST {
      SenderInAcked(s.group, s.procs[k.dest], k.msg.sender);
      SenderKnown(v, s, s.procs[k.dest], k.msg);
      var s1 := AfterLearning(v, s, k);
      assert k.msg.sender in p1.acked by { LearnIsLearned(v, s.procs[k.dest], k.msg); }
      if k.msg.kind == HEARTBEAT {
        TargetsExist(v, s1, p1, k.msg);
      } else {
        StoreInv(s1, p1, k.msg);
        TargetsExist(v, Put(s1, Keep(p1, k.msg)), Keep(p1, k.msg), k.msg);
      }
    }
  }

  lemma TargetsExist(v: Variant, s: System, p: Proc, m: Message)
    requires Inv(s) && p.id in s.procs && s.procs[p.id] == p
    requires m.sender in p.acked && p.Reported(m.sender, m.sender) >= m.number
    ensures forall w :: w in Wants(v, p, m) ==> w.targets != {}
  {
    hide Clocks, SentNumbered, NetOk, AcksSound, LogsArePrefixes, NothingLost, AllGenuine;
    forall w | w in Wants(v, p, m) ensures w.targets != {} {
      if v == Mcast {
        assert m.sender in w.targets;
      } else {
        var w0 :|
          && w0 in p.store && w0.sender == w.from && w0.sender != p.id && w.number < w0.number
          && w.targets == Holders(p, w0.sender, w.number);
        StoredAreSent(s, p.id, w0);
        assert StoreOk(s, p);
        assert w0.sender in w.targets;
      }
    }
  }

  /**
   * Whoever is asked for message `number` of `from` has delivered it and stores it at that moment, and the asker has
   * not delivered it; under nmcast.cc the asker does not even store it.
   */
  lemma RequestsAreWellAimed(v: Variant, s: System, k: Packet, c: Choice, x: Packet, from: Id)
    requires Inv(s) && Enabled(v, s, Receives(k, c)) && k.dest in s.procs
    requires x in HandleReceive(v, s.procs[k.dest], k.msg, c).1 && x.msg.kind == RETRANSREQUEST
    requires Decimal.Parse(x.msg.body) == Decimal.Number(from)
    ensures x.source == k.dest && x.dest in s.group && x.dest != k.dest && from in s.group && from != k.dest
    ensures s.procs.Keys == s.sent.Keys == s.group
    ensures Delivered(s, k.dest, from) < x.msg.number <= Delivered(s, x.dest, from)
    ensures HasStored(s.procs[x.dest], from, x.msg.number)
    ensures v == Nmcast ==> !HasStored(s.procs[k.dest], from, x.msg.number)
  {
    hide Inv, Learn, Wants, AlreadyReceived, KindOk, Genuine, ProcShape, PacketOk, IsLookup, HasStored;
    PacketFacts(s, k);
    AfterLearningInv(v, s, k);
    var p, p1, s1 := s.procs[k.dest], Learn(v, s.procs[k.dest], k.msg), AfterLearning(v, s, k);
    LearnFacts(v, p, k.msg);
    if k.msg.kind == RETRANSREQUEST {
      var from0 := RequestNames(s, k.msg);
      assert c.found.msg in p1.store && c.found.msg.kind == RETRANSREQUEST by { LookupStored(p1.store, c.found); }
      StoredKind(s1, p1, c.found.msg);
    } else {
      SenderInAcked(s.group, p, k.msg.sender);
      SenderKnown(v, s, p, k.msg);
      var p2, s2 := p1, s1;
      if k.msg.kind == MESSAGE {
        StoreInv(s1, p1, k.msg);
        p2, s2 := Keep(p1, k.msg), Put(s1, Keep(p1, k.msg));
      }
      var w :| w in Wants(v, p2, k.msg) && x.dest in w.targets && x == Packet(p2.id, x.dest, Request(p2, w));
      Decimal.ParseShow(w.from);
      TargetsDelivered(v, s2, p2, k.msg, w, x.dest);
      LostFacts(s2, x.dest, w.from, w.number);
      assert s2.procs[x.dest] == s.procs[x.dest];
      if v == Nmcast {
        NotStoredHere(p2, k.msg, w);
        FewerStored(p, p2, w.from, w.number);
      }
    }
  }

  lemma LookupStored(store: set<Message>, found: Lookup)
    requires found.Stored? && exists from, number :: IsLookup(store, from, number, found)
    ensures found.msg in store
  {
  }

  lemma StoredKind(s: System, p: Proc, m: Message)
    requires Inv(s) && p.id in s.procs && s.procs[p.id] == p && m in p.store
    ensures m.kind == MESSAGE
  {
    hide Clocks, SentNumbered, NetOk, AcksSound, LogsArePrefixes, NothingLost, AllGenuine;
    assert StoreOk(s, p);
  }

  lemma TargetsDelivered(v: Variant, s: System, p: Proc, m: Message, w: Want, q: Id)
    requires Inv(s) && p.id in s.procs && s.procs[p.id] == p && m.sender in s.group && m.sender != p.id
    requires w in Wants(v, p, m) && q in w.targets
    ensures s.procs.Keys == s.group && q in s.group && q != p.id && w.from in s.group && w.from != p.id
    ensures 0 <= Delivered(s, p.id, w.from) < w.number <= Delivered(s, q, w.from)
  {
    hide Clocks, SentNumbered, NetOk, AcksSound, LogsArePrefixes, NothingLost, AllGenuine, Stores;
    WantsAreOfOthers(v, s, p, m, w);
    AckFact(s, p.id, q, w.from);
    LogFacts(s, p.id, w.from);
  }

  lemma NotStoredHere(p: Proc, m: Message, w: Want)
    requires w in Wants(Nmcast, p, m)
    ensures !HasStored(p, w.from, w.number)
  {
  }

  lemma FewerStored(p: Proc, p2: Proc, from: Id, number: int)
    requires p.store <= p2.store && !HasStored(p2, from, number)
    ensures !HasStored(p, from, number)
  {
    if HasStored(p, from, number) {
      StoredStable(p, p2, from, number);
    }
  }
}

/** Creating messages: a multicast, a heartbeat or retransmission requests keep the invariant. */
module Casting {
  import opened VectorClocks
  import opened Ordering
  import opened Causality
  import opened Handlers
  import opened Network
  import opened Invariance
  import Decimal

  // ---- emission: messages come into being, packets go out

  /** `m` may be created in state `s` by a process that is not multicasting. */
  ghost predicate Fresh(s: System, m: Message) {
    && s.procs.Keys == s.sent.Keys == s.group && m.sender in s.group && m.kind != MESSAGE
    && m.clock == Current(s.group, s.trace, m.sender) && AcksBelow(s, m) && KindOk(s, m)
  }

  ghost predicate Emission(s: System, t: System, ms: set<Message>, packets: set<Packet>) {
    && t == Emit(s, ms, packets)
    && (forall m :: m in ms ==> m in s.born || Fresh(s, m))
    && forall k :: k in packets ==>
         && k.source in s.group && k.dest in s.group && k.source != k.dest
         && k.msg.sender != k.dest && (k.msg in s.born || k.msg in ms)
  }

  lemma EmissionShape(s: System, t: System, ms: set<Message>, packets: set<Packet>)
    requires Shape(s) && t == Emit(s, ms, packets)
    ensures Shape(t)
  {
  }

  lemma EmissionGrows(s: System, t: System, ms: set<Message>, packets: set<Packet>)
    requires s.procs.Keys == s.sent.Keys == s.group && t == Emit(s, ms, packets)
    ensures t.procs.Keys == t.sent.Keys == t.group == s.group && Grows(s, t)
  {
  }

  lemma FreshIsGenuine(s: System, t: System, ms: set<Message>, packets: set<Packet>, m: Message)
    requires Fresh(s, m) && m in ms && m !in s.born && t == Emit(s, ms, packets)
    ensures t.procs.Keys == t.sent.Keys == t.group && Genuine(t, m)
  {
    assert t.trace[..|s.trace|] == s.trace;
    forall k | k in t.group ensures m.acks[k] <= Delivered(t, m.sender, k) {
      assert m.acks[k] <= Delivered(s, m.sender, k);
    }
  }

  lemma EmissionGenuine(s: System, t: System, ms: set<Message>, packets: set<Packet>)
    requires s.procs.Keys == s.sent.Keys == s.group && AllGenuine(s) && Emission(s, t, ms, packets)
    ensures t.procs.Keys == t.sent.Keys == t.group && AllGenuine(t)
  {
    hide AllGenuine, Grows, Fresh, Genuine;
    EmissionGrows(s, t, ms, packets);
    forall m | m in t.born ensures Genuine(t, m) {
      if m in s.born {
        GenuineOf(s, m);
        GenuineStable(s, t, m);
      } else {
        FreshIsGenuine(s, t, ms, packets, m);
      }
    }
    AllGenuineIntro(t);
  }

  lemma EmissionNet(s: System, t: System, ms: set<Message>, packets: set<Packet>)
    requires s.procs.Keys == s.sent.Keys == s.group
    requires SentNumbered(s) && NetOk(s) && Stores(s) && Emission(s, t, ms, packets)
    ensures t.procs.Keys == t.sent.Keys == t.group && SentNumbered(t) && NetOk(t) && Stores(t)
  {
    forall k | k in t.net ensures PacketOk(t, k) {
      assert k in s.net ==> PacketOk(s, k);
    }
    forall p, i | p in t.group && 0 <= i < |t.sent[p]| ensures SentOk(t, p, i) { assert SentOk(s, p, i); }
    forall p | p in t.group ensures StoreOk(t, t.procs[p]) { assert StoreOk(s, s.procs[p]); }
  }

  lemma EmissionRest(s: System, t: System, ms: set<Message>, packets: set<Packet>)
    requires s.procs.Keys == s.sent.Keys == s.group && Clocks(s) && AcksSound(s) && LogsArePrefixes(s) && NothingLost(s)
    requires Emission(s, t, ms, packets)
    ensures t.procs.Keys == t.sent.Keys == t.group && Clocks(t) && AcksSound(t) && LogsArePrefixes(t) && NothingLost(t)
  {
    ClocksStable(s, t);
    AcksSoundStable(s, t);
    NothingLostStable(s, t);
    forall p, q | p in t.group && q in t.group ensures LogIsPrefix(t, p, q) { assert LogIsPrefix(s, p, q); }
  }

  lemma EmissionIsEmit(s: System, t: System, ms: set<Message>, packets: set<Packet>)
    requires Emission(s, t, ms, packets)
    ensures t == Emit(s, ms, packets)
  {
  }

  lemma EmissionInv(s: System, t: System, ms: set<Message>, packets: set<Packet>)
    requires Inv(s) && Emission(s, t, ms, packets)
    ensures Inv(t)
  {
    hide Clocks, SentNumbered, AllGenuine, NetOk, Stores, AcksSound, LogsArePrefixes, NothingLost, Grows, Emission;
    assert t == Emit(s, ms, packets) by { EmissionIsEmit(s, t, ms, packets); }
    EmissionShape(s, t, ms, packets);
    EmissionGenuine(s, t, ms, packets);
    EmissionNet(s, t, ms, packets);
    EmissionRest(s, t, ms, packets);
  }

  /** Heartbeats and requests carry the clock and the acknowledgements of their sender. */
  lemma NewMessageFresh(s: System, p: Proc, number: int, kind: Kind, body: string)
    requires Shape(s) && Clocks(s) && p.id in s.group && s.procs[p.id] == p
    requires kind == HEARTBEAT ==> number == p.number && body == ""
    requires kind == RETRANSREQUEST ==> exists from :: from in s.group && from != p.id && body == Decimal.Show(from)
    requires kind != MESSAGE
    ensures Fresh(s, NewMessage(p, number, kind, body))
  {
    hide Decimal.Show, ValidTrace;
    AcknowledgesDelivered(s, p, NewMessage(p, number, kind, body));
  }

  lemma AcknowledgesDelivered(s: System, p: Proc, m: Message)
    requires s.procs.Keys == s.group && p.id in s.group && s.procs[p.id] == p && ProcShape(s.group, p)
    requires m.sender == p.id && m.acks == Acknowledgements(p)
    ensures AcksBelow(s, m) && Get(m.acks, p.id) == p.number
  {
    assert m.acks.Keys == s.group;
    assert forall k :: k in s.group ==> m.acks[k] == Delivered(s, p.id, k);
  }

  // ---- a multicast

  /** `t` is `s` after process `p` has multicast `text`, before the packets leave. */
  ghost predicate Casts(s: System, t: System, p: Id, text: string) {
    && p in s.group && s.procs.Keys == s.sent.Keys == s.group
    && var (after, m) := Cast(s.procs[p], text);
       && t.group == s.group && t.net == s.net
       && t.procs == s.procs[p := after] && t.sent == s.sent[p := s.sent[p] + [m]]
       && t.trace == s.trace + [Tick(p, Sending, after.clock)]
       && t.born == Register(s.born, {m}, |t.trace|)
  }

  function CastMessage(s: System, p: Id, text: string): Message
    requires p in s.procs
  {
    Cast(s.procs[p], text).1
  }

  lemma CastShape(s: System, t: System, p: Id, text: string)
    requires Shape(s) && Casts(s, t, p, text)
    ensures Shape(t)
  {
    hide Cast, ProcShape;
    CastProc(s.procs[p], text);
    forall q | q in t.group
      ensures t.procs[q].id == q && ProcShape(t.group, t.procs[q]) && t.procs[q].number == |t.sent[q]| {
      if q == p {
        SameShape(s.group, s.procs[p], t.procs[p]);
      } else {
        assert t.procs[q] == s.procs[q] && t.sent[q] == s.sent[q];
      }
    }
  }

  lemma SameShape(group: set<Id>, p: Proc, after: Proc)
    requires ProcShape(group, p) && after.id == p.id && after.last == p.last && after.acked == p.acked
    ensures ProcShape(group, after)
  {
  }

  /** What a multicast changes in its process. */
  lemma CastProc(p: Proc, text: string)
    ensures
      var (after, m) := Cast(p, text);
      && after.id == p.id && after.number == p.number + 1 && after.last == p.last && after.acked == p.acked
      && m.sender == p.id && m.body == text && after.log == p.log + [Delivery(p.id, text)] && after.store == p.store + {m}
  {
    hide Step, Acknowledgements;
  }

  lemma CastGrows(s: System, t: System, p: Id, text: string)
    requires Shape(s) && Casts(s, t, p, text)
    ensures t.procs.Keys == t.sent.Keys == t.group && Grows(s, t)
  {
    hide Cast, ProcShape, Register, Delivered;
    RegisterKeeps(s.born, {CastMessage(s, p, text)}, |t.trace|);
    CastDelivers(s, t, p, text);
  }

  lemma RegisterKeeps(born: map<Message, nat>, ms: set<Message>, n: nat)
    ensures forall m :: m in born ==> m in Register(born, ms, n) && Register(born, ms, n)[m] == born[m]
  {
  }

  lemma CastDelivers(s: System, t: System, p: Id, text: string)
    requires Shape(s) && Casts(s, t, p, text)
    ensures t.procs.Keys == s.group
    ensures forall a, q :: a in s.group && q in s.group ==> Delivered(s, a, q) <= Delivered(t, a, q)
  {
    hide Cast, ProcShape, Register;
    CastProc(s.procs[p], text);
    forall a, q | a in s.group && q in s.group ensures Delivered(s, a, q) <= Delivered(t, a, q) {
      assert a == p || t.procs[a] == s.procs[a];
    }
  }

  lemma CastIsNew(s: System, p: Id, text: string)
    requires Shape(s) && AllGenuine(s) && p in s.group
    ensures CastMessage(s, p, text) !in s.born
  {
    var m := CastMessage(s, p, text);
    if m in s.born && Genuine(s, m) {
      assert false;
    }
  }

  lemma CastTick(s: System, p: Id, text: string)
    requires Shape(s) && Clocks(s) && p in s.group
    ensures ValidTick(s.group, s.trace, Tick(p, Sending, Cast(s.procs[p], text).0.clock))
  {
  }

  lemma CastTrace(s: System, t: System, p: Id, text: string)
    requires Casts(s, t, p, text)
    ensures p in s.group && s.procs.Keys == s.group == t.group == t.procs.Keys
    ensures t.procs[p] == Cast(s.procs[p], text).0 && t.trace == s.trace + [Tick(p, Sending, t.procs[p].clock)]
    ensures forall q :: q in s.group && q != p ==> t.procs[q] == s.procs[q]
  {
  }

  lemma CastClocks(s: System, t: System, p: Id, text: string)
    requires Shape(s) && Clocks(s) && Casts(s, t, p, text)
    ensures t.procs.Keys == t.group && Clocks(t)
  {
    hide Clocks, Casts, ValidTick, Cast, ProcShape;
    CastTrace(s, t, p, text);
    CastTick(s, p, text);
    ClocksAfterTick(s, t, Tick(p, Sending, t.procs[p].clock));
  }

  lemma CastGenuineNew(s: System, t: System, p: Id, text: string)
    requires Shape(s) && AllGenuine(s) && Shape(t) && Clocks(t) && Casts(s, t, p, text)
    ensures Genuine(t, CastMessage(s, p, text))
  {
    hide AllGenuine, Clocks, Stamped, AcksBelow, KindOk;
    CastIsNew(s, p, text);
    CastStamped(s, t, p, text);
    CastAcksBelow(s, t, p, text);
    CastKindOk(s, t, p, text);
  }

  lemma CastFacts(s: System, t: System, p: Id, text: string)
    requires Shape(s) && Casts(s, t, p, text) && CastMessage(s, p, text) !in s.born
    ensures
      var m := CastMessage(s, p, text);
      && m.sender == p && p in t.procs && m.clock == t.procs[p].clock && m in t.born && t.born[m] == |t.trace| > 0
      && t.trace[|t.trace| - 1] == Tick(p, Sending, m.clock)
  {
  }

  lemma CastStamped(s: System, t: System, p: Id, text: string)
    requires Shape(s) && t.procs.Keys == t.group && Clocks(t) && Casts(s, t, p, text)
    requires CastMessage(s, p, text) !in s.born
    ensures Stamped(t.group, t.trace, t.born, CastMessage(s, p, text))
  {
    hide Casts, CastMessage, ValidTrace, ProcShape;
    CastFacts(s, t, p, text);
    assert t.trace[..|t.trace|] == t.trace;
  }

  /** A multicast acknowledges exactly what its sender has delivered once it is out. */
  lemma OwnAcks(group: set<Id>, p: Proc, text: string)
    requires ProcShape(group, p) && p.id in group
    ensures
      var (after, m) := Cast(p, text);
      m.sender == p.id && m.acks.Keys == group && forall k :: k in group ==> m.acks[k] == after.Delivered(k)
  {
  }

  lemma CastAcksBelow(s: System, t: System, p: Id, text: string)
    requires Shape(s) && Casts(s, t, p, text)
    ensures var m := CastMessage(s, p, text); m.sender in t.procs && AcksBelow(t, m)
  {
    hide Cast, ProcShape;
    OwnAcks(s.group, s.procs[p], text);
  }

  lemma CastKindOk(s: System, t: System, p: Id, text: string)
    requires Shape(s) && Casts(s, t, p, text)
    ensures var m := CastMessage(s, p, text); m.sender in t.sent && KindOk(t, m)
  {
    hide ProcShape;
  }

  lemma CastGenuine(s: System, t: System, p: Id, text: string)
    requires Shape(s) && AllGenuine(s) && Shape(t) && Clocks(t) && Casts(s, t, p, text)
    ensures AllGenuine(t)
  {
    hide AllGenuine, Clocks, Genuine, ProcShape;
    CastGrows(s, t, p, text);
    CastGenuineNew(s, t, p, text);
    forall m | m in t.born ensures Genuine(t, m) {
      if m in s.born {
        GenuineOf(s, m);
        GenuineStable(s, t, m);
      }
    }
    assert AllGenuine(t) by { AllGenuineIntro(t); }
  }

  lemma AllGenuineIntro(t: System)
    requires t.procs.Keys == t.sent.Keys == t.group && forall m :: m in t.born ==> Genuine(t, m)
    ensures AllGenuine(t)
  {
  }

  lemma CastSentAt(s: System, t: System, p: Id, text: string, q: Id, i: int)
    requires Casts(s, t, p, text) && q in s.group && s.procs[p].id == p && s.procs[p].number == |s.sent[p]|
    requires t.sent.Keys == t.group && 0 <= i < |t.sent[q]| && (i < |s.sent[q]| ==> SentOk(s, q, i))
    ensures SentOk(t, q, i)
  {
  }

  lemma CastSent(s: System, t: System, p: Id, text: string)
    requires Shape(s) && SentNumbered(s) && Casts(s, t, p, text)
    ensures t.sent.Keys == t.group && SentNumbered(t)
  {
    hide Cast, ProcShape;
    forall q, i | q in t.group && 0 <= i < |t.sent[q]| ensures SentOk(t, q, i) {
      if i < |s.sent[q]| {
        assert SentOk(s, q, i);
      }
      CastSentAt(s, t, p, text, q, i);
    }
  }

  lemma CastNet(s: System, t: System, p: Id, text: string)
    requires NetOk(s) && Casts(s, t, p, text)
    ensures NetOk(t)
  {
    hide Cast;
    forall k | k in t.net ensures PacketOk(t, k) { assert PacketOk(s, k); }
  }

  lemma CastStores(s: System, t: System, p: Id, text: string)
    requires s.procs.Keys == s.group && p in s.group && s.procs[p].id == p && Stores(s) && Casts(s, t, p, text)
    ensures t.procs.Keys == t.group && Stores(t)
  {
    hide Cast, StoreOk;
    forall q | q in t.group ensures StoreOk(t, t.procs[q]) {
      assert StoreOk(s, s.procs[q]);
      CastStoreOk(s, t, p, text, q);
    }
  }

  lemma CastStoreOk(s: System, t: System, p: Id, text: string, q: Id)
    requires s.procs.Keys == s.group && p in s.group && s.procs[p].id == p && q in s.group && StoreOk(s, s.procs[q])
    requires Casts(s, t, p, text)
    ensures q in t.procs && StoreOk(t, t.procs[q])
  {
    hide Step, Acknowledgements;
  }

  lemma CastAcks(s: System, t: System, p: Id, text: string)
    requires Shape(s) && AcksSound(s) && Casts(s, t, p, text)
    ensures t.procs.Keys == t.group && AcksSound(t)
  {
    hide AcksSound, Cast, ProcShape;
    CastProc(s.procs[p], text);
    CastGrows(s, t, p, text);
    AcksSoundStable(s, t);
  }

  lemma CastLog(s: System, t: System, p: Id, text: string, a: Id, q: Id)
    requires s.procs.Keys == s.sent.Keys == s.group && a in s.group && q in s.group
    requires p in s.group && s.procs[p].id == p && s.procs[p].number == |s.sent[p]| && s.procs[a].id == a
    requires Casts(s, t, p, text) && LogIsPrefix(s, a, q)
    ensures t.procs.Keys == t.sent.Keys == t.group && LogIsPrefix(t, a, q)
  {
    hide Cast, From, Bodies, SourcesIn;
    CastProc(s.procs[p], text);
    var n := Delivered(s, a, q);
    assert t.sent[q][..n] == s.sent[q][..n];
    if a == p {
      LogPrefixAppend(s.procs[p].log, Delivery(p, text), q, s.group);
      if q == p {
        BodiesAppend(t.sent[p], n);
      }
    }
  }

  lemma CastLogs(s: System, t: System, p: Id, text: string)
    requires Shape(s) && LogsArePrefixes(s) && Casts(s, t, p, text)
    ensures t.procs.Keys == t.sent.Keys == t.group && LogsArePrefixes(t)
  {
    hide Casts;
    assert t.procs.Keys == t.sent.Keys == t.group == s.group && p in s.group by {
      CastGrows(s, t, p, text);
      CastHere(s, t, p, text);
    }
    forall a, q | a in t.group && q in t.group ensures LogIsPrefix(t, a, q) {
      assert LogIsPrefix(s, a, q);
      CastLog(s, t, p, text, a, q);
    }
  }

  lemma CastHere(s: System, t: System, p: Id, text: string)
    requires Casts(s, t, p, text)
    ensures p in s.group && t.group == s.group
  {
  }

  lemma CastSafe(s: System, t: System, p: Id, text: string)
    requires Shape(s) && NothingLost(s) && Casts(s, t, p, text)
    ensures t.procs.Keys == t.group && NothingLost(t)
  {
    CastGrows(s, t, p, text);
    var m := CastMessage(s, p, text);
    forall a, q, i | a in t.group && q in t.group && 1 <= i <= Delivered(t, a, q) ensures Safe(t, a, q, i) {
      if i <= Delivered(s, a, q) {
        assert Safe(s, a, q, i);
        SafeStable(s, t, a, q, i);
      } else {
        assert a == p && q == p && i == m.number;
        assert m in t.procs[p].store && Matches(m, p, i);
      }
    }
  }

  lemma CastInv(s: System, t: System, p: Id, text: string)
    requires Inv(s) && Casts(s, t, p, text)
    ensures Inv(t)
  {
    hide Clocks, SentNumbered, AllGenuine, NetOk, Stores, AcksSound, LogsArePrefixes, NothingLost, Casts, ProcShape;
    CastHere(s, t, p, text);
    CastShape(s, t, p, text);
    CastClocks(s, t, p, text);
    CastGenuine(s, t, p, text);
    CastSent(s, t, p, text);
    CastNet(s, t, p, text);
    CastStores(s, t, p, text);
    CastAcks(s, t, p, text);
    CastLogs(s, t, p, text);
    CastSafe(s, t, p, text);
  }
}

/** Every event of a run keeps the invariant, and the guarantees that follow over all runs. */
module Reliability {
  import opened VectorClocks
  import opened Ordering
  import opened Causality
  import opened Handlers
  import opened Network
  import opened Invariance
  import opened Casting
  import Decimal

  // ---- the parts of a receive

  lemma PutTwice(s: System, p: Proc, q: Proc)
    requires p.id == q.id
    ensures Put(Put(s, p), q) == Put(s, q)
  {
  }

  lemma DeliverKeeps(p: Proc, order: seq<Message>)
    ensures DeliverInOrder(p, order) == p.(last := DeliverInOrder(p, order).last, log := DeliverInOrder(p, order).log)
  {
  }

  /** What a delivery leaves as it was, and what grows. */
  lemma DeliveredNext(group: set<Id>, p: Proc, m: Message)
    requires ProcShape(group, p) && m.sender in group && m.sender != p.id && m.number == Get(p.last, m.sender) + 1
    ensures
      var after := TryDeliver(p, m);
      && ProcShape(group, after) && after.clock == p.clock && after.acked == p.acked && after.number == p.number
      && after.id == p.id && after.store == p.store && after.last == p.last[m.sender := m.number]
      && after.log == p.log + [Delivery(m.sender, m.body)]
      && forall q :: q in group ==> Get(p.last, q) <= Get(after.last, q)
  {
  }

  lemma IsDelivering(s: System, p: Proc, m: Message)
    requires s.procs.Keys == s.group && ProcShape(s.group, p)
    requires p.id in s.procs && s.procs[p.id] == p && m in p.store && m.sender in s.group && m.sender != p.id
    requires m.number == Get(p.last, m.sender) + 1
    ensures TryDeliver(p, m).id == p.id && Delivering(s, Put(s, TryDeliver(p, m)), TryDeliver(p, m), m)
  {
    hide TryDeliver, ProcShape;
    DeliveredNext(s.group, p, m);
  }

  lemma StoredMessage(s: System, p: Proc, m: Message)
    requires Inv(s) && p.id in s.procs && s.procs[p.id] == p && m in p.store
    ensures s.procs.Keys == s.group && ProcShape(s.group, p) && m.sender in s.group
  {
    hide ProcShape, Clocks, SentNumbered, NetOk, AcksSound, LogsArePrefixes, NothingLost, AllGenuine, Stores, Genuine, KindOk;
    StoredIsGenuine(s, p, m);
  }

  lemma DeliverOneInv(s: System, p: Proc, m: Message)
    requires Inv(s) && p.id in s.procs && s.procs[p.id] == p && m in p.store && m.sender != p.id
    ensures Inv(Put(s, TryDeliver(p, m)))
  {
    hide Inv, Delivering, ProcShape;
    StoredMessage(s, p, m);
    if m.number == Get(p.last, m.sender) + 1 {
      IsDelivering(s, p, m);
      DeliveringInv(s, Put(s, TryDeliver(p, m)), TryDeliver(p, m), m);
    } else {
      assert s.procs[p.id := p] == s.procs;
    }
  }

  lemma {:induction false} DeliverAllInv(s: System, p: Proc, order: seq<Message>)
    requires Inv(s) && p.id in s.procs && s.procs[p.id] == p
    requires forall m :: m in order ==> m in p.store && m.sender != p.id
    ensures Inv(Put(s, DeliverInOrder(p, order)))
    decreases |order|
  {
    hide Inv;
    if order == [] {
      assert s.procs[p.id := p] == s.procs;
    } else {
      var prefix, m := order[..|order| - 1], order[|order| - 1];
      var p1 := DeliverInOrder(p, prefix);
      DeliverKeeps(p, prefix);
      DeliverAllInv(s, p, prefix);
      DeliverOneInv(Put(s, p1), p1, m);
      PutTwice(s, p1, TryDeliver(p1, m));
    }
  }

  lemma CleanInv(s: System, p: Proc)
    requires Inv(s) && p.id in s.procs && s.procs[p.id] == p
    ensures Inv(Put(s, Clean(p)))
  {
    hide Clocks, SentNumbered, NetOk, AcksSound, LogsArePrefixes, NothingLost, AllGenuine, Stores, Deletable;
    assert Cleaning(s, Put(s, Clean(p)), Clean(p));
    CleaningInv(s, Put(s, Clean(p)), Clean(p));
  }

  /** Whom a request names, and whom it goes to. */
  lemma WantsAreOfOthers(v: Variant, s: System, p: Proc, m: Message, w: Want)
    requires s.procs.Keys == s.sent.Keys == s.group && AllGenuine(s) && Stores(s) && p.id in s.group && s.procs[p.id] == p
    requires m.sender in s.group && m.sender != p.id && w in Wants(v, p, m)
    ensures w.from in s.group && w.from != p.id && w.targets <= p.acked.Keys
    ensures Get(p.last, w.from) < w.number
  {
    if v == Nmcast {
      var w0 :| w0 in p.store && w0.sender == w.from && w0.sender != p.id;
      StoredIsGenuine(s, p, w0);
    }
  }

  lemma RequestsEmission(v: Variant, s: System, p: Proc, m: Message, out: set<Packet>)
    requires Inv(s) && p.id in s.procs && s.procs[p.id] == p && m.sender in s.group && m.sender != p.id
    requires out == RequestPackets(p, Wants(v, p, m))
    ensures Emission(s, Emit(s, Contents(out), out), Contents(out), out)
  {
    hide Clocks, SentNumbered, NetOk, AcksSound, LogsArePrefixes, NothingLost, AllGenuine, Stores, Fresh, Wants;
    forall k | k in out
      ensures Fresh(s, k.msg) && k.source in s.group && k.dest in s.group && k.source != k.dest && k.msg.sender == k.source
    {
      var w :| w in Wants(v, p, m) && k.dest in w.targets && k.msg == Request(p, w) && k.source == p.id;
      WantsAreOfOthers(v, s, p, m, w);
      NewMessageFresh(s, p, w.number, RETRANSREQUEST, Decimal.Show(w.from));
    }
  }

  /** The system after process `k.dest` has learned from `k`. */
  function AfterLearning(v: Variant, s: System, k: Packet): System
    requires k.dest in s.procs
  {
    var p1 := Learn(v, s.procs[k.dest], k.msg);
    AddTick(Put(s, p1), Tick(k.dest, Receiving(k.msg.sender, BirthOf(s, k.msg)), p1.clock))
  }

  /** Every packet in the network is for a member other than the sender of its message. */
  lemma PacketFacts(s: System, k: Packet)
    requires Inv(s) && k in s.net
    ensures s.procs.Keys == s.sent.Keys == s.group && k.dest in s.group && s.procs[k.dest].id == k.dest
    ensures ProcShape(s.group, s.procs[k.dest]) && PacketOk(s, k)
    ensures k.msg.sender in s.group && k.msg.sender != k.dest && k.msg in s.born
    ensures Genuine(s, k.msg) && KindOk(s, k.msg) && k.msg.acks.Keys == s.group
  {
    hide Clocks, SentNumbered, AcksSound, LogsArePrefixes, NothingLost, AllGenuine, Stores, ProcShape, KindOk, Genuine;
    assert PacketOk(s, k);
    GenuineOf(s, k.msg);
  }

  lemma LearningOf(v: Variant, s: System, k: Packet)
    requires s.procs.Keys == s.group && k.dest in s.group && s.procs[k.dest].id == k.dest
    requires ProcShape(s.group, s.procs[k.dest]) && PacketOk(s, k) && k.msg.sender in s.group
    ensures Learning(s, AfterLearning(v, s, k), k, Learn(v, s.procs[k.dest], k.msg))
  {
    LearnIsLearned(v, s.procs[k.dest], k.msg);
    LearnKeepsShape(v, s.group, s.procs[k.dest], k.msg);
  }

  lemma LearnKeepsShape(v: Variant, group: set<Id>, p: Proc, m: Message)
    requires ProcShape(group, p)
    ensures ProcShape(group, Learn(v, p, m))
  {
  }

  lemma AfterLearningInv(v: Variant, s: System, k: Packet)
    requires Inv(s) && k in s.net
    ensures k.dest in s.procs && Inv(AfterLearning(v, s, k))
  {
    hide Inv, ProcShape, PacketOk, Learn, AfterLearning, KindOk, Genuine, Learning;
    PacketFacts(s, k);
    LearningOf(v, s, k);
    LearningInv(s, AfterLearning(v, s, k), k, Learn(v, s.procs[k.dest], k.msg));
  }

  /** What a process knows of the sender right after learning from a multicast or a heartbeat. */
  lemma SenderKnown(v: Variant, s: System, p: Proc, m: Message)
    requires m.sender in p.acked && m.sender in s.sent && m.sender in m.acks && KindOk(s, m) && m.kind != RETRANSREQUEST
    ensures Learn(v, p, m).Reported(m.sender, m.sender) >= m.number
  {
    LearnIsLearned(v, p, m);
  }

  /** What a request asks for, and for whom. */
  lemma RequestNames(s: System, m: Message) returns (from: Id)
    requires m.sender in s.sent && KindOk(s, m) && m.kind == RETRANSREQUEST
    ensures from in s.group && from != m.sender && Decimal.Parse(m.body) == Decimal.Number(from)
  {
    from :| from in s.group && from != m.sender && m.body == Decimal.Show(from);
    Decimal.ParseShow(from);
  }

  /** A reply carries a stored multicast of somebody else to the member that asked for it. */
  lemma ReplyEmission(s: System, p: Proc, to: Id, from: Id, number: int, found: Lookup, out: set<Packet>)
    requires s.procs.Keys == s.sent.Keys == s.group && AllGenuine(s) && Stores(s)
    requires p.id in s.group && s.procs[p.id] == p && to in s.group && to != p.id && from != to
    requires IsLookup(p.store, from, number, found)
    requires out == if found.Stored? then SendTo(p, {to}, found.msg) else {}
    ensures Emission(s, Emit(s, Contents(out), out), Contents(out), out)
  {
    hide AllGenuine, Stores, KindOk, Genuine;
    if found.Stored? {
      StoredIsGenuine(s, p, found.msg);
    }
  }

  lemma NoEmission(s: System)
    ensures Emit(s, Contents({}), {}) == s
  {
    assert Contents({}) == {};
    assert Register(s.born, {}, |s.trace|) == s.born;
  }

  lemma EmitAfterPut(s: System, p: Proc, ms: set<Message>, packets: set<Packet>)
    ensures Put(Emit(s, ms, packets), p) == Emit(Put(s, p), ms, packets)
  {
  }

  lemma FinishInv(s: System, p: Proc, order: seq<Message>)
    requires Inv(s) && p.id in s.procs && s.procs[p.id] == p
    requires forall m :: m in order ==> m in p.store && m.sender != p.id
    ensures Inv(Put(s, Clean(DeliverInOrder(p, order))))
  {
    hide Inv;
    DeliverAllInv(s, p, order);
    var p3 := DeliverInOrder(p, order);
    DeliverKeeps(p, order);
    CleanInv(Put(s, p3), p3);
    PutTwice(s, p3, Clean(p3));
  }

  lemma StoreInv(s: System, p: Proc, m: Message)
    requires Inv(s) && p.id in s.procs && s.procs[p.id] == p && m in s.born && m.kind == MESSAGE
    requires m.sender != p.id && p.Reported(m.sender, m.sender) >= m.number
    ensures Inv(Put(s, Keep(p, m)))
  {
    hide Clocks, SentNumbered, NetOk, AcksSound, LogsArePrefixes, NothingLost, AllGenuine, Stores;
    var p2 := Keep(p, m);
    assert Storing(s, Put(s, p2), p2, m);
    StoringInv(s, Put(s, p2), p2, m);
  }

  /** Asking for what is missing. */
  lemma RequestsInv(v: Variant, s: System, p: Proc, m: Message, out: set<Packet>)
    requires Inv(s) && p.id in s.procs && s.procs[p.id] == p && m.sender in s.group && m.sender != p.id
    requires out == RequestPackets(p, Wants(v, p, m))
    ensures Inv(Emit(s, Contents(out), out))
  {
    hide Inv, Wants, RequestPackets, Emission;
    RequestsEmission(v, s, p, m, out);
    EmissionInv(s, Emit(s, Contents(out), out), Contents(out), out);
  }

  /** Storing, asking for what is missing, delivering and cleaning up. */
  lemma NewMulticastInv(v: Variant, s: System, p: Proc, m: Message, order: seq<Message>, out: set<Packet>)
    requires Inv(s) && p.id in s.procs && s.procs[p.id] == p && m in s.born && m.kind == MESSAGE
    requires m.sender in s.group && m.sender != p.id && p.Reported(m.sender, m.sender) >= m.number
    requires Lists(order, Undelivered(Keep(p, m)))
    requires out == RequestPackets(Keep(p, m), Wants(v, Keep(p, m), m))
    ensures Inv(Emit(Put(s, Clean(DeliverInOrder(Keep(p, m), order))), Contents(out), out))
  {
    hide Inv, Wants, RequestPackets, Clean, Contents, Register;
    var p2 := Keep(p, m);
    var s2 := Put(s, p2);
    StoreInv(s, p, m);
    RequestsInv(v, s2, p2, m, out);
    FinishInv(Emit(s2, Contents(out), out), p2, order);
    CleanKeepsId(p2, order);
    var p4 := Clean(DeliverInOrder(p2, order));
    EmitAfterPut(s2, p4, Contents(out), out);
    PutTwice(s, p2, p4);
  }

  lemma CleanKeepsId(p: Proc, order: seq<Message>)
    ensures Clean(DeliverInOrder(p, order)).id == p.id && Clean(DeliverInOrder(p, order)).clock == p.clock
  {
    DeliverKeeps(p, order);
  }

  /** Receiving any packet of the network, in any of the ways the handler may go. */
  lemma ReceiveInv(v: Variant, s: System, k: Packet, c: Choice)
    requires Inv(s) && Enabled(v, s, Receives(k, c))
    ensures Inv(Apply(v, s, Receives(k, c)))
  {
    hide Inv, Learn, AlreadyReceived, Wants, RequestPackets, Clean, Contents, Register, Genuine, KindOk, ProcShape, IsLookup;
    PacketFacts(s, k);
    AfterLearningInv(v, s, k);
    var s1, p1 := AfterLearning(v, s, k), Learn(v, s.procs[k.dest], k.msg);
    LearnFacts(v, s.procs[k.dest], k.msg);
    var out := HandleReceive(v, s.procs[k.dest], k.msg, c).1;
    if k.msg.kind == RETRANSREQUEST {
      var from := RequestNames(s, k.msg);
      ReplyInv(s1, p1, k.msg.sender, from, k.msg.number, c.found, out);
    } else {
      assert k.msg.sender in s.procs[k.dest].acked by { SenderInAcked(s.group, s.procs[k.dest], k.msg.sender); }
      SenderKnown(v, s, s.procs[k.dest], k.msg);
      if k.msg.kind == HEARTBEAT {
        RequestsInv(v, s1, p1, k.msg, out);
      } else if AlreadyReceived(p1, k.msg) {
        NoEmission(s1);
      } else {
        NewMulticastInv(v, s1, p1, k.msg, c.order, out);
        CleanKeepsId(Keep(p1, k.msg), c.order);
        PutTwice(s, p1, Clean(DeliverInOrder(Keep(p1, k.msg), c.order)));
      }
    }
  }

  lemma SenderInAcked(group: set<Id>, p: Proc, q: Id)
    requires ProcShape(group, p) && q in group && q != p.id
    ensures q in p.acked
  {
  }

  lemma LearnFacts(v: Variant, p: Proc, m: Message)
    ensures var p1 := Learn(v, p, m);
      p1.id == p.id && p1.store == p.store && p1.last == p.last && p1.number == p.number && p1.log == p.log
  {
  }

  lemma ReplyInv(s: System, p: Proc, to: Id, from: Id, number: int, found: Lookup, out: set<Packet>)
    requires Inv(s) && p.id in s.group && s.procs.Keys == s.group && s.procs[p.id] == p
    requires to in s.group && to != p.id && from != to && IsLookup(p.store, from, number, found)
    requires out == if found.Stored? then SendTo(p, {to}, found.msg) else {}
    ensures Inv(Emit(s, Contents(out), out))
  {
    hide Shape, Clocks, SentNumbered, NetOk, AcksSound, LogsArePrefixes, NothingLost, AllGenuine, Stores, IsLookup, Emission;
    assert s.sent.Keys == s.group by { ShapeKeys(s); }
    ReplyEmission(s, p, to, from, number, found, out);
    EmissionInv(s, Emit(s, Contents(out), out), Contents(out), out);
  }

  lemma ShapeKeys(s: System)
    requires Shape(s)
    ensures s.procs.Keys == s.sent.Keys == s.group
  {
  }

  // ---- the other events

  /** Packets with one message, new or known, from its sender to the other members. */
  lemma SendToAll(s: System, p: Proc, m: Message, out: set<Packet>)
    requires s.procs.Keys == s.sent.Keys == s.group && p.id in s.group && ProcShape(s.group, p)
    requires (m in s.born || Fresh(s, m)) && m.sender == p.id && out == SendTo(p, p.last.Keys, m)
    ensures Emission(s, Emit(s, {m}, out), {m}, out)
  {
    hide Fresh;
  }

  lemma BeatInv(s: System, p: Id)
    requires Inv(s) && p in s.procs
    ensures Inv(Emit(s, {Beat(s.procs[p])}, SendTo(s.procs[p], s.procs[p].last.Keys, Beat(s.procs[p]))))
  {
    hide Inv, ProcShape, SendTo, Emission, Fresh;
    InvShape(s, p);
    var m := Beat(s.procs[p]);
    var out := SendTo(s.procs[p], s.procs[p].last.Keys, m);
    BeatFresh(s, p);
    SendToAll(s, s.procs[p], m, out);
    EmissionInv(s, Emit(s, {m}, out), {m}, out);
  }

  lemma BeatFresh(s: System, p: Id)
    requires Inv(s) && p in s.procs
    ensures Fresh(s, Beat(s.procs[p]))
  {
    hide Clocks, SentNumbered, NetOk, AcksSound, LogsArePrefixes, NothingLost, AllGenuine, Stores, Fresh, ProcShape;
    NewMessageFresh(s, s.procs[p], s.procs[p].number, HEARTBEAT, "");
  }

  function AfterCast(s: System, p: Id, text: string): System
    requires p in s.procs && p in s.sent
  {
    var (after, m) := Cast(s.procs[p], text);
    var s1 := AddTick(Put(s, after), Tick(p, Sending, after.clock));
    s1.(sent := s1.sent[p := s1.sent[p] + [m]])
  }

  lemma RegisterTwice(born: map<Message, nat>, ms: set<Message>, n: nat)
    ensures Register(Register(born, ms, n), ms, n) == Register(born, ms, n)
  {
  }

  lemma CastEventInv(s: System, p: Id, text: string)
    requires Inv(s) && p in s.procs && p in s.sent
    ensures
      var (after, m) := Cast(s.procs[p], text);
      Inv(Emit(AfterCast(s, p, text), {m}, SendTo(after, after.last.Keys, m)))
  {
    hide Inv, ProcShape, SendTo, Emission, Register, Grows;
    assert s.procs.Keys == s.sent.Keys == s.group && s.procs[p].id == p by { InvShape(s, p); }
    var (after, m) := Cast(s.procs[p], text);
    var s1 := AfterCast(s, p, text);
    var s2 := s1.(born := Register(s1.born, {m}, |s1.trace|));
    CastInv(s, s2, p, text);
    var out := SendTo(after, after.last.Keys, m);
    assert ProcShape(s2.group, after) by { InvShape(s2, p); }
    assert m in s2.born by { InRegister(s1.born, m, |s1.trace|); }
    SendToAll(s2, after, m, out);
    EmissionInv(s2, Emit(s2, {m}, out), {m}, out);
    RegisterTwice(s1.born, {m}, |s1.trace|);
  }

  lemma InRegister(born: map<Message, nat>, m: Message, n: nat)
    ensures m in Register(born, {m}, n)
  {
  }

  lemma InvShape(s: System, p: Id)
    requires Inv(s)
    ensures s.procs.Keys == s.sent.Keys == s.group
    ensures p in s.group ==> s.procs[p].id == p && ProcShape(s.group, s.procs[p])
  {
    hide Clocks, SentNumbered, NetOk, AcksSound, LogsArePrefixes, NothingLost, AllGenuine, Stores, ProcShape;
  }

  lemma FailureInv(s: System, t: System, p: Proc, after: Proc)
    requires Inv(s) && p.id in s.procs && s.procs[p.id] == p && after == p.(failed := after.failed)
    requires t == Put(s, after).(crashed := t.crashed)
    ensures Inv(t)
  {
    hide Clocks, SentNumbered, NetOk, AcksSound, LogsArePrefixes, NothingLost, AllGenuine, Stores;
    QuietInv(s, t, after);
  }

  lemma ApplyInv(v: Variant, s: System, e: Event)
    requires Inv(s) && Enabled(v, s, e)
    ensures Inv(Apply(v, s, e))
  {
    hide Inv, HandleReceive, Cast, Beat, SendTo, Emit, ChoiceOk, ProcShape;
    match e
    case Receives(k, c) => ReceiveInv(v, s, k, c);
    case Multicasts(p, text) =>
      InvShape(s, p);
      CastEventInv(s, p, text);
    case Beats(p) => BeatInv(s, p);
    case Suspects(p, q) =>
      InvShape(s, p);
      FailureInv(s, Apply(v, s, e), s.procs[p], s.procs[p].(failed := s.procs[p].failed + {q}));
    case Crashes(p) =>
      InvShape(s, p);
      assert s.procs[p := s.procs[p]] == s.procs;
      FailureInv(s, Apply(v, s, e), s.procs[p], s.procs[p]);
  }

  lemma StartShape(group: set<Id>)
    ensures Shape(Start(group)) && Clocks(Start(group))
  {
  }

  lemma StartLogs(group: set<Id>)
    ensures LogsArePrefixes(Start(group)) && AcksSound(Start(group)) && NothingLost(Start(group))
  {
    var s := Start(group);
    assert forall p :: p in group ==> s.procs[p] == InitialProc(p, group);
    assert forall p, q :: p in group && q in group ==> Delivered(s, p, q) == 0;
  }

  lemma StartInv(group: set<Id>)
    ensures Inv(Start(group))
  {
    hide Shape, Clocks, AcksSound, LogsArePrefixes, NothingLost;
    StartShape(group);
    StartLogs(group);
  }

  lemma ApplyGroup(v: Variant, s: System, e: Event)
    requires Enabled(v, s, e)
    ensures Apply(v, s, e).group == s.group
  {
    hide HandleReceive, Cast, Beat, SendTo, ChoiceOk;
  }

  /** The invariant holds after every run, of either variant, of a group of any size. */
  lemma {:induction false} RunInv(v: Variant, group: set<Id>, run: seq<Event>)
    requires IsRun(v, group, run)
    ensures Inv(After(v, group, run)) && After(v, group, run).group == group
  {
    hide Inv, Enabled, Apply;
    if run == [] {
      StartInv(group);
    } else {
      var s := After(v, group, run[..|run| - 1]);
      RunInv(v, group, run[..|run| - 1]);
      ApplyInv(v, s, run[|run| - 1]);
      ApplyGroup(v, s, run[|run| - 1]);
    }
  }
}

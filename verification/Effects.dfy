/**
 * What each event does to the processes and the network, said of packets, counters and stores alone: who is asked for
 * what, what is delivered, what is kept, what is reported.
 */
module Effects {
  import opened VectorClocks
  import opened Ordering
  import opened Handlers
  import opened Network
  import opened Invariance
  import opened Reliability
  import opened Guarantees
  import opened ClockGuarantees
  import Decimal

  /** A message of `p` tells its clock, how much it has delivered of each member, and whom it believes to have failed. */
  predicate Reports(group: set<Id>, p: Proc, m: Message) {
    && m.sender == p.id && m.clock == p.clock && m.failed == p.failed
    && m.acks.Keys == group && forall q :: q in group ==> m.acks[q] == p.Delivered(q)
  }

  /** Message `m` from `p` to each other member that `p` does not believe to have failed. */
  predicate ToTheOthers(s: System, p: Proc, m: Message, x: Packet) {
    x.source == p.id && x.msg == m && x.dest in s.group && x.dest != p.id && x.dest !in p.failed
  }

  // ---- multicasts and heartbeats

  /** A multicast steps number and own clock entry, is delivered and stored at once, and goes to the others. */
  lemma MulticastEffect(v: Variant, s: System, p: Id, text: string) returns (m: Message)
    requires Inv(s) && Enabled(v, s, Multicasts(p, text))
    ensures p in Apply(v, s, Multicasts(p, text)).procs
    ensures
      var t := Apply(v, s, Multicasts(p, text));
      var before, after := s.procs[p], t.procs[p];
      && t.procs == s.procs[p := after]
      && after == before.(clock := after.clock, number := before.number + 1, store := before.store + {m},
                          log := before.log + [Delivery(p, text)])
      && after.clock.Keys == s.group
      && (forall q :: q in s.group ==> after.clock[q] == Get(before.clock, q) + if q == p then 1 else 0)
      && m.kind == MESSAGE && m.number == before.number + 1 && m.body == text && Reports(s.group, after, m)
      && forall x :: x in t.net <==> x in s.net || ToTheOthers(s, after, m, x)
  {
    hide Inv, ProcShape, Register, Cast, SendTo, Reports, ToTheOthers;
    InvShape(s, p);
    ClockKeysOf(s, p);
    CastEffect(s.procs[p], text, s.group);
    m := Cast(s.procs[p], text).1;
    SentToOthers(s, Cast(s.procs[p], text).0, m);
  }

  lemma ClockKeysOf(s: System, p: Id)
    requires Inv(s) && p in s.group
    ensures p in s.procs && s.procs[p].clock.Keys == s.group
  {
    hide ProcShape, SentNumbered, NetOk, AcksSound, LogsArePrefixes, NothingLost, AllGenuine, Stores;
    Causality.CurrentKeys(s.group, s.trace, p);
  }

  lemma CastEffect(p: Proc, text: string, group: set<Id>)
    requires ProcShape(group, p) && p.clock.Keys == group
    ensures
      var (after, m) := Cast(p, text);
      && after == p.(clock := after.clock, number := p.number + 1, store := p.store + {m},
                     log := p.log + [Delivery(p.id, text)])
      && after.clock.Keys == group && ProcShape(group, after)
      && (forall q :: q in group ==> after.clock[q] == Get(p.clock, q) + if q == p.id then 1 else 0)
      && m.kind == MESSAGE && m.number == p.number + 1 && m.body == text && Reports(group, after, m)
  {
  }

  lemma SentToOthers(s: System, p: Proc, m: Message)
    requires ProcShape(s.group, p)
    ensures forall x :: x in SendTo(p, p.last.Keys, m) <==> ToTheOthers(s, p, m, x)
  {
  }

  /** A heartbeat tells number, clock and deliveries to the others and changes no process. */
  lemma BeatEffect(v: Variant, s: System, p: Id) returns (m: Message)
    requires Inv(s) && Enabled(v, s, Beats(p))
    ensures
      var t := Apply(v, s, Beats(p));
      && t.procs == s.procs
      && m.kind == HEARTBEAT && m.number == s.procs[p].number && m.body == "" && Reports(s.group, s.procs[p], m)
      && forall x :: x in t.net <==> x in s.net || ToTheOthers(s, s.procs[p], m, x)
  {
    hide Inv, ProcShape, Register, SendTo, Reports, ToTheOthers, Beat;
    InvShape(s, p);
    m := Beat(s.procs[p]);
    BeatReports(s.procs[p], s.group);
    SentToOthers(s, s.procs[p], m);
  }

  lemma BeatReports(p: Proc, group: set<Id>)
    requires ProcShape(group, p)
    ensures
      var m := Beat(p);
      m.kind == HEARTBEAT && m.number == p.number && m.body == "" && Reports(group, p, m)
  {
  }

  // ---- what a receipt teaches

  function Max(a: int, b: int): int {
    if a < b then b else a
  }

  /**
   * After a receipt the process knows, entry by entry, the larger of two clocks and of two reports of the sender; under
   * mcast.cc it holds every suspicion that the message carries, under nmcast.cc it holds no new one.
   */
  lemma ReceiptTeaches(v: Variant, s: System, k: Packet, c: Choice)
    requires Inv(s) && Enabled(v, s, Receives(k, c))
    ensures k.dest in Apply(v, s, Receives(k, c)).procs
    ensures
      var t := Apply(v, s, Receives(k, c));
      var before, after := s.procs[k.dest], t.procs[k.dest];
      && t.procs == s.procs[k.dest := after] && after.id == k.dest && after.number == before.number
      && after.failed == before.failed + (if v == Mcast then k.msg.failed else {})
      && after.clock.Keys == s.group
      && (forall q :: q in s.group ==>
            after.clock[q] ==
              if q == k.dest then Get(before.clock, q) + 1 else Max(Get(before.clock, q), Get(k.msg.clock, q)))
      && (forall q, i :: q in s.group && i in s.group ==>
            after.Reported(q, i) ==
              if q == k.msg.sender then Max(before.Reported(q, i), k.msg.acks[i]) else before.Reported(q, i))
  {
    hide Inv, ProcShape, Register, HandleReceive, Contents, KindOk, Genuine, PacketOk, ChoiceOk;
    PacketFacts(s, k);
    ClockKeysOf(s, k.dest);
    HandlerTeaches(v, s.procs[k.dest], k.msg, c, s.group);
  }

  lemma HandlerTeaches(v: Variant, p: Proc, m: Message, c: Choice, group: set<Id>)
    requires ProcShape(group, p) && m.sender in group && m.sender != p.id && m.acks.Keys == group && p.clock.Keys == group
    ensures
      var after := HandleReceive(v, p, m, c).0;
      && after.id == p.id && after.number == p.number && after.clock.Keys == group
      && after.failed == p.failed + (if v == Mcast then m.failed else {})
      && (forall q :: q in group ==>
            after.clock[q] == if q == p.id then Get(p.clock, q) + 1 else Max(Get(p.clock, q), Get(m.clock, q)))
      && (forall q, i :: q in group && i in group ==>
            after.Reported(q, i) == if q == m.sender then Max(p.Reported(q, i), m.acks[i]) else p.Reported(q, i))
  {
    hide Learn, AlreadyReceived, RequestPackets, Wants, SendTo;
    LearnTeaches(v, p, m, group);
    DeliverKeeps(Keep(Learn(v, p, m), m), c.order);
  }

  lemma LearnTeaches(v: Variant, p: Proc, m: Message, group: set<Id>)
    requires ProcShape(group, p) && m.sender in group && m.sender != p.id && m.acks.Keys == group && p.clock.Keys == group
    ensures
      var after := Learn(v, p, m);
      && after.id == p.id && after.number == p.number && after.clock.Keys == group
      && after.failed == p.failed + (if v == Mcast then m.failed else {})
      && (forall q :: q in group ==>
            after.clock[q] == if q == p.id then Get(p.clock, q) + 1 else Max(Get(p.clock, q), Get(m.clock, q)))
      && (forall q, i :: q in group && i in group ==>
            after.Reported(q, i) == if q == m.sender then Max(p.Reported(q, i), m.acks[i]) else p.Reported(q, i))
  {
  }

  // ---- whom a receipt asks, and for what

  /** A multicast that `p` has neither delivered nor stored. */
  ghost predicate News(p: Proc, m: Message) {
    && m.kind == MESSAGE && m.number > p.Delivered(m.sender)
    && forall x :: x in p.store ==> !(x.sender == m.sender && x.number == m.number)
  }

  /** What `p` stores while it deals with `m`. */
  ghost function Held(p: Proc, m: Message): set<Message> {
    if News(p, m) then p.store + {m} else p.store
  }

  /** Packet `x` asks `q` for message `i` of `from`. */
  predicate IsAsk(x: Packet, q: Id, from: Id, i: int) {
    && x.dest == q && x.msg.kind == RETRANSREQUEST && x.msg.number == i
    && Decimal.Parse(x.msg.body) == Decimal.Number(from)
  }

  /** Between `s` and `t`, process `p` asks `q` for message `i` of `from`. */
  ghost predicate Asks(s: System, t: System, p: Id, q: Id, from: Id, i: int) {
    exists x :: x in t.net && x !in s.net && x.source == p && x.msg.sender == p && IsAsk(x, q, from, i)
  }

  /** mcast.cc: message `i` of the sender of `m` is missing in front of `m`. */
  predicate InGap(p: Proc, m: Message, from: Id, i: int) {
    from == m.sender && p.Delivered(from) < i < m.number
  }

  /** nmcast.cc: message `i` of another member is missing in front of all that is held of that member, which is something. */
  ghost predicate InFront(p: Proc, m: Message, from: Id, i: int) {
    && from != p.id && p.Delivered(from) < i
    && (exists x :: x in Held(p, m) && x.sender == from)
    && forall x :: x in Held(p, m) && x.sender == from ==> i < x.number
  }

  /** The bound that a report about `from` has to reach for its process to be asked for message `i`. */
  function Bound(v: Variant, m: Message, i: int): int {
    if v == Mcast then m.number else i
  }

  ghost predicate Missing(v: Variant, p: Proc, m: Message, from: Id, i: int) {
    && (m.kind == HEARTBEAT || News(p, m))
    && if v == Mcast then InGap(p, m, from, i) else InFront(p, m, from, i)
  }

  /**
   * A heartbeat, and a multicast that is news, makes the receiver ask for exactly what is missing, exactly those that
   * are known to have it and not believed to have failed; nothing else makes it ask.
   */
  lemma AsksIff(v: Variant, s: System, k: Packet, c: Choice, q: Id, from: Id, i: int)
    requires Inv(s) && Enabled(v, s, Receives(k, c)) && q in s.group && from in s.group
    ensures k.dest in Apply(v, s, Receives(k, c)).procs
    ensures
      var t := Apply(v, s, Receives(k, c));
      Asks(s, t, k.dest, q, from, i) <==>
        && Missing(v, s.procs[k.dest], k.msg, from, i) && q != k.dest
        && t.procs[k.dest].Reported(q, from) >= Bound(v, k.msg, i) && q !in t.procs[k.dest].failed
  {
    hide Inv, ProcShape, Register, HandleReceive, Contents, KindOk, Genuine, PacketOk, ChoiceOk, Missing, IsAsk;
    PacketFacts(s, k);
    var t := Apply(v, s, Receives(k, c));
    var p, out := s.procs[k.dest], HandleReceive(v, s.procs[k.dest], k.msg, c).1;
    HandlerAsks(v, s, k, c, q, from, i);
    assert t.net == s.net + out;
    if x :| x in out && IsAsk(x, q, from, i) {
      AskIsNew(v, s, k, c, x, q, from, i);
      assert x in t.net;
    }
    if Asks(s, t, k.dest, q, from, i) {
      var x :| x in t.net && x !in s.net && IsAsk(x, q, from, i);
      assert x in out;
    }
  }

  /** A request carries the clock after its receipt, so it has never been sent before. */
  lemma AskIsNew(v: Variant, s: System, k: Packet, c: Choice, x: Packet, q: Id, from: Id, i: int)
    requires Inv(s) && Enabled(v, s, Receives(k, c)) && k.dest in s.procs
    requires x in HandleReceive(v, s.procs[k.dest], k.msg, c).1 && IsAsk(x, q, from, i)
    ensures x.source == k.dest && x.msg.sender == k.dest && x !in s.net
  {
    hide Inv, ProcShape, Learn, Wants, AlreadyReceived, KindOk, Genuine, PacketOk, IsLookup;
    PacketFacts(s, k);
    var p := s.procs[k.dest];
    LearnFacts(v, p, k.msg);
    if k.msg.kind == RETRANSREQUEST {
      var from0 := RequestNames(s, k.msg);
      LookupStored(p.store, c.found);
      StoredKind(s, p, c.found.msg);
    } else {
      assert x.msg.sender == k.dest && x.msg.clock == Learn(v, p, k.msg).clock;
      ClockKeysOf(s, k.dest);
      LearnTeaches(v, p, k.msg, s.group);
      if x in s.net {
        PacketFacts(s, x);
        ClockFacts(s, k.dest, x.msg);
      }
    }
  }

  lemma HandlerAsks(v: Variant, s: System, k: Packet, c: Choice, q: Id, from: Id, i: int)
    requires Inv(s) && Enabled(v, s, Receives(k, c)) && k.dest in s.procs && q in s.group && from in s.group
    ensures HandleReceive(v, s.procs[k.dest], k.msg, c).0.id == k.dest
    ensures
      var p := s.procs[k.dest];
      var (after, out) := HandleReceive(v, p, k.msg, c);
      (exists x :: x in out && IsAsk(x, q, from, i)) <==>
        && Missing(v, p, k.msg, from, i) && q != k.dest
        && after.Reported(q, from) >= Bound(v, k.msg, i) && q !in after.failed
  {
    hide Inv, ProcShape, Learn, Wants, AlreadyReceived, KindOk, Genuine, PacketOk, IsLookup, RequestPackets, IsAsk, Missing;
    PacketFacts(s, k);
    var p, p1 := s.procs[k.dest], Learn(v, s.procs[k.dest], k.msg);
    LearnFacts(v, p, k.msg);
    LearnKeepsShape(v, s.group, p, k.msg);
    NewsMeans(v, p, k.msg);
    DeliverKeeps(Keep(p1, k.msg), c.order);
    if k.msg.kind == RETRANSREQUEST {
      NothingMissing(v, p, k.msg, from, i);
      var from0 := RequestNames(s, k.msg);
      forall x | x in HandleReceive(v, p, k.msg, c).1 ensures !IsAsk(x, q, from, i) {
        LookupStored(p1.store, c.found);
        StoredKind(s, p, c.found.msg);
        NoAsk(x, q, from, i);
      }
    } else if k.msg.kind == HEARTBEAT {
      WantsAsk(v, s.group, p, p1, k.msg, q, from, i);
    } else if News(p, k.msg) {
      KeepShape(s.group, p1, k.msg);
      WantsAsk(v, s.group, p, Keep(p1, k.msg), k.msg, q, from, i);
    } else {
      NothingMissing(v, p, k.msg, from, i);
    }
  }

  lemma KeepShape(group: set<Id>, p: Proc, m: Message)
    requires ProcShape(group, p)
    ensures ProcShape(group, Keep(p, m))
  {
  }

  lemma NoAsk(x: Packet, q: Id, from: Id, i: int)
    requires x.msg.kind == MESSAGE
    ensures !IsAsk(x, q, from, i)
  {
  }

  lemma NothingMissing(v: Variant, p: Proc, m: Message, from: Id, i: int)
    requires m.kind != HEARTBEAT && !News(p, m)
    ensures !Missing(v, p, m, from, i)
  {
  }

  lemma NewsMeans(v: Variant, p: Proc, m: Message)
    requires m.sender != p.id
    ensures m.kind == MESSAGE ==> (News(p, m) <==> !AlreadyReceived(Learn(v, p, m), m))
  {
    LearnFacts(v, p, m);
    assert forall x :: x in p.store ==> (Matches(x, m.sender, m.number) <==> x.sender == m.sender && x.number == m.number);
  }

  /** The requests that the wants of `p2` give, `p2` being `p` once it has learned from and keeps `m`. */
  lemma WantsAsk(v: Variant, group: set<Id>, p: Proc, p2: Proc, m: Message, q: Id, from: Id, i: int)
    requires ProcShape(group, p2) && p2.id == p.id && p2.last == p.last && p2.store == Held(p, m) && m.sender != p.id
    requires (m.kind == HEARTBEAT || News(p, m)) && q in group
    requires p2.number == p.number
    ensures (exists x :: x in RequestPackets(p2, Wants(v, p2, m)) && IsAsk(x, q, from, i)) <==>
      && Missing(v, p, m, from, i) && q != p.id && p2.Reported(q, from) >= Bound(v, m, i) && q !in p2.failed
  {
    hide Wants, Missing, ProcShape, Held;
    RequestsOfWants(p2, Wants(v, p2, m), q, from, i);
    var w := Want(from, i, Holders(p2, from, Bound(v, m, i)));
    WantIff(v, p, p2, m, from, i);
    HoldersReport(group, p2, from, Bound(v, m, i), q);
  }

  lemma RequestsOfWants(p: Proc, wants: set<Want>, q: Id, from: Id, i: int)
    ensures (exists x :: x in RequestPackets(p, wants) && IsAsk(x, q, from, i)) <==>
      exists w :: w in wants && w.from == from && w.number == i && q in w.targets && q !in p.failed
  {
    Decimal.ParseShow(from);
    if w :| w in wants && w.from == from && w.number == i && q in w.targets && q !in p.failed {
      var x := Packet(p.id, q, Request(p, w));
      assert x in RequestPackets(p, wants) && IsAsk(x, q, from, i);
    }
    if x :| x in RequestPackets(p, wants) && IsAsk(x, q, from, i) {
      var w :| w in wants && q in w.targets && q !in p.failed && x == Packet(p.id, q, Request(p, w));
      Decimal.ParseShow(w.from);
    }
  }

  lemma HoldersReport(group: set<Id>, p: Proc, from: Id, n: int, q: Id)
    requires ProcShape(group, p) && q in group
    ensures q in Holders(p, from, n) <==> q != p.id && p.Reported(q, from) >= n
  {
  }

  lemma WantIff(v: Variant, p: Proc, p2: Proc, m: Message, from: Id, i: int)
    requires p2.id == p.id && p2.last == p.last && p2.number == p.number && p2.store == Held(p, m) && m.sender != p.id
    requires m.kind == HEARTBEAT || News(p, m)
    ensures Missing(v, p, m, from, i) <==> Want(from, i, Holders(p2, from, Bound(v, m, i))) in Wants(v, p2, m)
    ensures forall w :: w in Wants(v, p2, m) ==> w.targets == Holders(p2, w.from, Bound(v, m, w.number))
  {
    hide Held, Holders, News;
  }

  // ---- what else a receipt sends

  /** The request of a receiver: what it had delivered before, with what it has just learned. */
  predicate IsRequestOf(group: set<Id>, before: Proc, after: Proc, m: Message) {
    && m.kind == RETRANSREQUEST && m.sender == after.id && m.clock == after.clock && m.failed == after.failed
    && m.acks.Keys == group && forall q :: q in group ==> m.acks[q] == before.Delivered(q)
  }

  /** A receipt sends requests only, except that it answers a request. */
  lemma ReceiptSends(v: Variant, s: System, k: Packet, c: Choice, x: Packet)
    requires Inv(s) && Enabled(v, s, Receives(k, c))
    requires x in Apply(v, s, Receives(k, c)).net && x !in s.net
    ensures k.dest in Apply(v, s, Receives(k, c)).procs
    ensures
      var after := Apply(v, s, Receives(k, c)).procs[k.dest];
      && x.source == k.dest && x.dest !in after.failed
      && if k.msg.kind == RETRANSREQUEST then x.dest == k.msg.sender && x.msg in s.procs[k.dest].store
         else IsRequestOf(s.group, s.procs[k.dest], after, x.msg)
  {
    hide Inv, ProcShape, Learn, Wants, AlreadyReceived, KindOk, Genuine, PacketOk, IsLookup, IsRequestOf, Register, NewMessage;
    PacketFacts(s, k);
    var p, p1 := s.procs[k.dest], Learn(v, s.procs[k.dest], k.msg);
    LearnFacts(v, p, k.msg);
    LearnKeepsShape(v, s.group, p, k.msg);
    DeliverKeeps(Keep(p1, k.msg), c.order);
    var (after, out) := HandleReceive(v, p, k.msg, c);
    assert x in out && after.id == k.dest;
    if k.msg.kind == RETRANSREQUEST {
      LookupStored(p.store, c.found);
    } else {
      KeepShape(s.group, p1, k.msg);
      RequestTells(s.group, p, p1, after, x);
      RequestTells(s.group, p, Keep(p1, k.msg), after, x);
    }
  }

  lemma RequestTells(group: set<Id>, p: Proc, p2: Proc, after: Proc, x: Packet)
    requires ProcShape(group, p2) && p2.id == p.id && p2.last == p.last && p2.number == p.number
    requires after.id == p2.id && after.clock == p2.clock && after.failed == p2.failed
    ensures forall w :: x.msg == Request(p2, w) ==> IsRequestOf(group, p, after, x.msg)
  {
  }

  /** A request is answered exactly if its message is stored and the asker is not believed to have failed. */
  lemma AnswersIff(v: Variant, s: System, k: Packet, c: Choice, q: Id)
    requires Inv(s) && Enabled(v, s, Receives(k, c)) && k.msg.kind == RETRANSREQUEST && q in s.group
    requires Decimal.Parse(k.msg.body) == Decimal.Number(q)
    ensures k.dest in s.procs && q in s.sent && k.dest in Apply(v, s, Receives(k, c)).procs
    ensures
      var t, i := Apply(v, s, Receives(k, c)), k.msg.number;
      var stored := exists m :: m in s.procs[k.dest].store && m.sender == q && m.number == i;
      && (stored ==> 1 <= i <= |s.sent[q]|)
      && t.net == s.net +
           if stored && k.msg.sender !in t.procs[k.dest].failed then {Packet(k.dest, k.msg.sender, s.sent[q][i - 1])} else {}
  {
    hide Inv, Learn, Register, ChoiceOk;
    PacketFacts(s, k);
    LearnFacts(v, s.procs[k.dest], k.msg);
    RequestIsAnsweredIff(v, s, k, c, q);
    assert forall m :: Matches(m, q, k.msg.number) <==> m.sender == q && m.number == k.msg.number;
  }

  // ---- what a receipt delivers and keeps

  /**
   * A receipt delivers from `q` exactly if it brings news and the next message of `q` is then at hand; what was delivered
   * before stays delivered.
   */
  lemma DeliversIff(v: Variant, s: System, k: Packet, c: Choice, q: Id)
    requires Inv(s) && Enabled(v, s, Receives(k, c)) && q in s.group && q != k.dest
    ensures k.dest in Apply(v, s, Receives(k, c)).procs
    ensures
      var before, after := s.procs[k.dest], Apply(v, s, Receives(k, c)).procs[k.dest];
      && (after.Delivered(q) > before.Delivered(q) <==>
           && News(before, k.msg)
           && exists m :: m in Held(before, k.msg) && m.sender == q && m.number == before.Delivered(q) + 1)
      && before.log <= after.log
  {
    hide Inv, ProcShape, Register, HandleReceive, Contents, KindOk, Genuine, PacketOk, ChoiceOk, News, Held;
    PacketFacts(s, k);
    HandlerDelivers(v, s.procs[k.dest], k.msg, c, q);
  }

  lemma HandlerDelivers(v: Variant, p: Proc, m: Message, c: Choice, q: Id)
    requires ChoiceOk(v, p, m, c) && m.sender != p.id && q != p.id
    ensures
      var after := HandleReceive(v, p, m, c).0;
      && after.id == p.id && p.log <= after.log
      && (after.Delivered(q) > p.Delivered(q) <==>
           News(p, m) && exists x :: x in Held(p, m) && x.sender == q && x.number == p.Delivered(q) + 1)
  {
    hide Learn, AlreadyReceived, RequestPackets, Wants, SendTo, News, IsLookup;
    LearnFacts(v, p, m);
    NewsMeans(v, p, m);
    NewsIsMulticast(p, m);
    if News(p, m) {
      var p2 := Keep(Learn(v, p, m), m);
      DeliverKeeps(p2, c.order);
      LogGrows(p2, c.order);
      if x :| x in Held(p, m) && x.sender == q && x.number == p.Delivered(q) + 1 {
        assert x in c.order;
        PassMakesProgress(p2, c.order, x);
      }
      if Get(DeliverInOrder(p2, c.order).last, q) > Get(p2.last, q) {
        PassIsConsecutive(p2, c.order, q, Get(p2.last, q) + 1);
      }
    }
  }

  lemma NewsIsMulticast(p: Proc, m: Message)
    ensures News(p, m) ==> m.kind == MESSAGE
  {
  }

  lemma {:induction false} LogGrows(p: Proc, order: seq<Message>)
    ensures p.log <= DeliverInOrder(p, order).log
    decreases |order|
  {
    if order != [] {
      LogGrows(p, order[..|order| - 1]);
    }
  }

  /** Some member is not known to `p` to have delivered `m`. */
  ghost predicate StillNeeded(group: set<Id>, p: Proc, m: Message) {
    exists q :: q in group && m.number > if q == p.id then p.Delivered(m.sender) else p.Reported(q, m.sender)
  }

  /**
   * News is stored, and then everything goes that all members are known to have delivered, and nothing else; any other
   * receipt leaves the store alone.
   */
  lemma KeepsIff(v: Variant, s: System, k: Packet, c: Choice, m: Message)
    requires Inv(s) && Enabled(v, s, Receives(k, c))
    ensures k.dest in Apply(v, s, Receives(k, c)).procs
    ensures
      var before, after := s.procs[k.dest], Apply(v, s, Receives(k, c)).procs[k.dest];
      m in after.store <==> m in Held(before, k.msg) && (News(before, k.msg) ==> StillNeeded(s.group, after, m))
  {
    hide Inv, ProcShape, Register, HandleReceive, Contents, KindOk, Genuine, PacketOk, ChoiceOk, News, StillNeeded;
    PacketFacts(s, k);
    if m in s.procs[k.dest].store {
      StoredAreSent(s, k.dest, m);
      InvShape(s, k.dest);
      NumberIsSent(s, k.dest);
    }
    HandlerKeeps(v, s.group, s.procs[k.dest], k.msg, c, m);
  }

  lemma NumberIsSent(s: System, p: Id)
    requires Inv(s) && p in s.group
    ensures p in s.procs && p in s.sent && s.procs[p].number == |s.sent[p]|
  {
    hide ProcShape, Clocks, SentNumbered, NetOk, AcksSound, LogsArePrefixes, NothingLost, AllGenuine, Stores;
  }

  lemma HandlerKeeps(v: Variant, group: set<Id>, p: Proc, m: Message, c: Choice, x: Message)
    requires ProcShape(group, p) && m.sender in group && m.sender != p.id
    requires x in p.store ==> x.sender in group && (x.sender == p.id ==> x.number <= p.number)
    ensures
      var after := HandleReceive(v, p, m, c).0;
      && after.id == p.id
      && (x in after.store <==> x in Held(p, m) && (News(p, m) ==> StillNeeded(group, after, x)))
  {
    hide Learn, AlreadyReceived, RequestPackets, Wants, SendTo, News, StillNeeded, ProcShape, Deletable;
    LearnFacts(v, p, m);
    LearnKeepsShape(v, group, p, m);
    NewsMeans(v, p, m);
    NewsIsMulticast(p, m);
    if News(p, m) {
      var p2 := Keep(Learn(v, p, m), m);
      DeliverKeeps(p2, c.order);
      KeepShape(group, Learn(v, p, m), m);
      var p3 := DeliverInOrder(p2, c.order);
      if x in p3.store {
        DeletableMeans(group, p3, x);
      }
    }
  }

  lemma DeletableMeans(group: set<Id>, p: Proc, x: Message)
    requires p.id in group && p.acked.Keys == group - {p.id} && (x.sender == p.id ==> x.number <= p.number)
    ensures Deletable(p, x) <==> !StillNeeded(group, p, x)
    ensures StillNeeded(group, Clean(p), x) <==> StillNeeded(group, p, x)
  {
    if !Deletable(p, x) {
      if x.sender != p.id && x.number > Get(p.last, x.sender) {
        assert StillNeeded(group, p, x);
      } else {
        var q :| q in p.acked && x.number > Get(p.acked[q], x.sender);
        assert q in group && x.number > p.Reported(q, x.sender);
      }
    }
  }
}

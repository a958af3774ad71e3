/** The small steps of a handler, one process at a time, and the proof that each of them keeps the invariant. */
module Invariance {
  import opened VectorClocks
  import opened Ordering
  import opened Causality
  import opened Handlers
  import opened Network
  import Decimal

  // ---- growth: what no step takes back

  ghost predicate Grows(s: System, t: System)
    requires s.procs.Keys == s.sent.Keys == s.group && t.procs.Keys == t.sent.Keys == t.group
  {
    && t.group == s.group && s.trace <= t.trace && s.net <= t.net
    && (forall m :: m in s.born ==> m in t.born && t.born[m] == s.born[m])
    && (forall p :: p in s.group ==> s.sent[p] <= t.sent[p])
    && (forall p, q :: p in s.group && q in s.group ==> Delivered(s, p, q) <= Delivered(t, p, q))
  }

  lemma StampedStable(group: set<Id>, t: Trace, u: Trace, born: map<Message, nat>, born': map<Message, nat>, m: Message)
    requires Stamped(group, t, born, m) && t <= u && m in born' && born'[m] == born[m]
    ensures Stamped(group, u, born', m)
  {
    assert u[..born[m]] == t[..born[m]];
  }

  lemma GenuineStable(s: System, t: System, m: Message)
    requires s.procs.Keys == s.sent.Keys == s.group && t.procs.Keys == t.sent.Keys == t.group
    requires Grows(s, t) && Genuine(s, m)
    ensures Genuine(t, m)
  {
    StampedStable(s.group, s.trace, t.trace, s.born, t.born, m);
    forall k | k in t.group ensures m.acks[k] <= Delivered(t, m.sender, k) {
      assert m.acks[k] <= Delivered(s, m.sender, k);
    }
  }

  /** What a step that creates no message keeps. */
  lemma CarryOver(s: System, t: System)
    requires Shape(s) && SentNumbered(s) && AllGenuine(s) && NetOk(s)
    requires Shape(t) && Grows(s, t) && t.born == s.born && t.net == s.net && t.sent == s.sent
    ensures SentNumbered(t) && AllGenuine(t) && NetOk(t)
  {
    forall m | m in t.born ensures Genuine(t, m) { GenuineStable(s, t, m); }
    forall k | k in t.net ensures PacketOk(t, k) { assert PacketOk(s, k); }
    forall p, i | p in t.group && 0 <= i < |t.sent[p]| ensures SentOk(t, p, i) { assert SentOk(s, p, i); }
  }

  lemma LogPrefixAppend(log: seq<Delivery>, d: Delivery, q: Id, group: set<Id>)
    ensures SourcesIn(log, group) && d.source in group ==> SourcesIn(log + [d], group)
    ensures From(log + [d], q) == From(log, q) + if d.source == q then [d.body] else []
  {
    assert (log + [d])[..|log|] == log;
  }

  lemma BodiesAppend(ms: seq<Message>, n: nat)
    requires n < |ms|
    ensures Bodies(ms[..n + 1]) == Bodies(ms[..n]) + [ms[n].body]
  {
    assert ms[..n + 1][..n] == ms[..n];
  }

  // ---- the micro-steps of a receive

  lemma ValidTraceAppend(group: set<Id>, t: Trace, x: Tick)
    requires ValidTrace(group, t) && ValidTick(group, t, x)
    ensures ValidTrace(group, t + [x])
    ensures forall p :: Current(group, t + [x], p) == if p == x.proc then x.clock else Current(group, t, p)
  {
    var u := t + [x];
    assert u[..|t|] == t;
    forall i | 0 <= i < |u| ensures ValidTick(group, u[..i], u[i]) {
      if i < |t| {
        assert u[..i] == t[..i];
        assert ValidTick(group, t[..i], t[i]);
      }
    }
  }

  /** What `t` may differ in from `s` when only process `after.id` has moved. */
  ghost predicate OnlyMoved(s: System, t: System, after: Proc) {
    && after.id in s.group && ProcShape(s.group, after)
    && t.group == s.group && t.sent == s.sent && t.net == s.net && t.born == s.born
    && t.procs == s.procs[after.id := after]
  }

  ghost predicate SameDelivery(p: Proc, after: Proc) {
    after.id == p.id && after.number == p.number && after.last == p.last && after.log == p.log
  }

  lemma MovedShape(s: System, t: System, after: Proc)
    requires Shape(s) && OnlyMoved(s, t, after) && after.number == s.procs[after.id].number
    ensures Shape(t)
  {
  }

  lemma MovedGrows(s: System, t: System, after: Proc)
    requires Shape(s) && OnlyMoved(s, t, after) && s.trace <= t.trace
    requires forall q :: q in s.group ==> s.procs[after.id].Delivered(q) <= after.Delivered(q)
    ensures Grows(s, t)
  {
    forall p, q | p in s.group && q in s.group ensures Delivered(s, p, q) <= Delivered(t, p, q) {
      assert p == after.id || t.procs[p] == s.procs[p];
    }
  }

  /** Learning and storing deliver nothing, and lose nothing. */
  lemma SameLogs(s: System, t: System, after: Proc)
    requires Shape(s) && OnlyMoved(s, t, after) && SameDelivery(s.procs[after.id], after)
    requires LogsArePrefixes(s)
    ensures LogsArePrefixes(t)
  {
    forall p, q | p in t.group && q in t.group ensures LogIsPrefix(t, p, q) {
      assert LogIsPrefix(s, p, q);
    }
  }

  lemma StoredStable(p: Proc, after: Proc, from: Id, number: int)
    requires p.store <= after.store && HasStored(p, from, number)
    ensures HasStored(after, from, number)
  {
    var m :| m in p.store && Matches(m, from, number);
    assert m in after.store;
  }

  lemma EverybodyStable(s: System, t: System, q: Id, i: int)
    requires s.procs.Keys == s.group == t.group == t.procs.Keys && q in s.group
    requires forall p :: p in s.group ==> Delivered(s, p, q) <= Delivered(t, p, q)
    requires EverybodyDelivered(s, q, i)
    ensures EverybodyDelivered(t, q, i)
  {
  }

  lemma SafeStable(s: System, t: System, p: Id, q: Id, i: int)
    requires s.procs.Keys == s.group == t.group == t.procs.Keys && p in s.group && q in s.group
    requires s.procs[p].store <= t.procs[p].store
    requires forall r :: r in s.group ==> Delivered(s, r, q) <= Delivered(t, r, q)
    requires Safe(s, p, q, i)
    ensures Safe(t, p, q, i)
  {
    if HasStored(s.procs[p], q, i) {
      StoredStable(s.procs[p], t.procs[p], q, i);
    } else {
      EverybodyStable(s, t, q, i);
    }
  }

  lemma NothingLostStable(s: System, t: System)
    requires s.procs.Keys == s.group == t.group == t.procs.Keys
    requires forall p :: p in s.group ==> s.procs[p].store <= t.procs[p].store
    requires forall p, q :: p in s.group && q in s.group ==> Delivered(s, p, q) == Delivered(t, p, q)
    requires NothingLost(s)
    ensures NothingLost(t)
  {
    forall p, q, i | p in t.group && q in t.group && 1 <= i <= Delivered(t, p, q) ensures Safe(t, p, q, i) {
      assert Safe(s, p, q, i);
      SafeStable(s, t, p, q, i);
    }
  }

  // ---- learning from a message

  function Max(a: int, b: int): int {
    if a < b then b else a
  }

  ghost predicate Learned(p: Proc, after: Proc, m: Message) {
    && SameDelivery(p, after) && after.store == p.store && after.acked.Keys == p.acked.Keys
    && after.clock == Update(Step(p.clock, p.id), m.clock, p.id)
    && forall q, k {:trigger after.Reported(q, k)} :: q in p.acked ==>
         after.Reported(q, k) == Max(p.Reported(q, k), if q == m.sender && k in m.acks then m.acks[k] else p.Reported(q, k))
  }

  lemma LearnIsLearned(v: Variant, p: Proc, m: Message)
    ensures Learned(p, Learn(v, p, m), m)
  {
  }

  lemma AcksSoundAfterLearning(s: System, t: System, after: Proc, m: Message)
    requires s.procs.Keys == s.group == t.group && t.procs == s.procs[after.id := after] && after.id in s.group
    requires forall q :: q in s.group ==> s.procs[q].id == q && s.procs[q].acked.Keys == s.group - {q}
    requires Learned(s.procs[after.id], after, m) && m.sender in s.group && AcksBelow(s, m) && AcksSound(s)
    ensures AcksSound(t)
  {
    hide AckSound, Learned, AcksBelow;
    forall a, b, c | a in t.group && b in t.group && b != a && c in t.group ensures AckSound(t, a, b, c) {
      assert AckSound(s, a, b, c);
      AckAfterLearning(s, t, after, m, a, b, c);
    }
  }

  lemma AckAfterLearning(s: System, t: System, after: Proc, m: Message, a: Id, b: Id, c: Id)
    requires s.procs.Keys == s.group == t.group && t.procs == s.procs[after.id := after] && after.id in s.group
    requires forall q :: q in s.group ==> s.procs[q].id == q && s.procs[q].acked.Keys == s.group - {q}
    requires Learned(s.procs[after.id], after, m) && m.sender in s.group && AcksBelow(s, m)
    requires a in s.group && b in s.group && b != a && c in s.group && AckSound(s, a, b, c)
    ensures AckSound(t, a, b, c)
  {
    assert Delivered(t, b, c) == Delivered(s, b, c);
  }

  lemma StoresAfterLearning(s: System, t: System, after: Proc, m: Message)
    requires s.procs.Keys == s.group == t.group && t.procs == s.procs[after.id := after] && after.id in s.group
    requires forall q :: q in s.group ==> s.procs[q].id == q && s.procs[q].acked.Keys == s.group - {q}
    requires forall w :: w in s.born ==> w.sender in s.group
    requires Learned(s.procs[after.id], after, m) && t.born == s.born && Stores(s)
    ensures Stores(t)
  {
    hide StoreOk, Learned;
    forall q | q in t.group ensures StoreOk(t, t.procs[q]) {
      assert StoreOk(s, s.procs[q]);
      if q == after.id {
        StoreAfterLearning(s, t, after, m);
      } else {
        StoreOkStable(s, t, s.procs[q]);
      }
    }
  }

  lemma StoreOkStable(s: System, t: System, p: Proc)
    requires StoreOk(s, p) && t.born == s.born
    ensures StoreOk(t, p)
  {
  }

  lemma StoreAfterLearning(s: System, t: System, after: Proc, m: Message)
    requires after.id in s.procs && StoreOk(s, s.procs[after.id]) && Learned(s.procs[after.id], after, m)
    requires s.procs[after.id].id == after.id && s.procs[after.id].acked.Keys == s.group - {after.id}
    requires t.born == s.born && forall w :: w in s.born ==> w.sender in s.group
    ensures StoreOk(t, after)
  {
    var p := s.procs[after.id];
    forall w | w in after.store && w.sender != after.id ensures after.Reported(w.sender, w.sender) >= w.number {
      assert p.Reported(w.sender, w.sender) >= w.number;
    }
  }

  lemma ClocksAfterTick(s: System, t: System, x: Tick)
    requires s.procs.Keys == s.group == t.group == t.procs.Keys && Clocks(s)
    requires t.trace == s.trace + [x] && ValidTick(s.group, s.trace, x)
    requires t.procs[x.proc].clock == x.clock
    requires forall p :: p in s.group && p != x.proc ==> t.procs[p].clock == s.procs[p].clock
    ensures Clocks(t)
  {
    ValidTraceAppend(s.group, s.trace, x);
  }

  lemma GenuineOf(s: System, m: Message)
    requires s.procs.Keys == s.sent.Keys == s.group && AllGenuine(s) && m in s.born
    ensures Genuine(s, m) && m.sender in s.group && Stamped(s.group, s.trace, s.born, m) && AcksBelow(s, m) && KindOk(s, m)
  {
  }

  /** `t` is `s` after process `after.id` has learned from packet `k`. */
  ghost predicate Learning(s: System, t: System, k: Packet, after: Proc) {
    && s.procs.Keys == s.group && k.dest == after.id && OnlyMoved(s, t, after) && PacketOk(s, k) && k.msg.sender in s.group
    && Learned(s.procs[k.dest], after, k.msg)
    && t.trace == s.trace + [Tick(k.dest, Receiving(k.msg.sender, s.born[k.msg]), after.clock)]
  }

  lemma LearningShape(s: System, t: System, k: Packet, after: Proc)
    requires Shape(s) && Learning(s, t, k, after)
    ensures Shape(t) && Grows(s, t)
  {
    hide PacketOk, ProcShape, Grows;
    MovedShape(s, t, after);
    MovedGrows(s, t, after);
  }

  lemma LearningTick(s: System, t: System, k: Packet, after: Proc)
    requires Shape(s) && Clocks(s) && Learning(s, t, k, after) && Stamped(s.group, s.trace, s.born, k.msg)
    ensures ValidTick(s.group, s.trace, Tick(k.dest, Receiving(k.msg.sender, s.born[k.msg]), after.clock))
  {
  }

  lemma LearningClocks(s: System, t: System, k: Packet, after: Proc)
    requires Shape(s) && Clocks(s) && AllGenuine(s) && Learning(s, t, k, after)
    ensures t.procs.Keys == t.group && Clocks(t)
  {
    hide AllGenuine, Learned, Clocks, ValidTick, ProcShape;
    GenuineOf(s, k.msg);
    LearningTick(s, t, k, after);
    ClocksAfterTick(s, t, Tick(k.dest, Receiving(k.msg.sender, s.born[k.msg]), after.clock));
  }

  lemma LearningAcks(s: System, t: System, k: Packet, after: Proc)
    requires Shape(s) && AcksSound(s) && AllGenuine(s) && Learning(s, t, k, after)
    ensures t.procs.Keys == t.group && AcksSound(t)
  {
    hide AllGenuine, AcksSound, Learned;
    GenuineOf(s, k.msg);
    AcksSoundAfterLearning(s, t, after, k.msg);
  }

  lemma LearningStores(s: System, t: System, k: Packet, after: Proc)
    requires Shape(s) && Stores(s) && AllGenuine(s) && Learning(s, t, k, after)
    ensures t.procs.Keys == t.group && Stores(t)
  {
    hide AllGenuine, Stores, Learned;
    forall w | w in s.born ensures w.sender in s.group { GenuineOf(s, w); }
    StoresAfterLearning(s, t, after, k.msg);
  }

  lemma LearningLogs(s: System, t: System, k: Packet, after: Proc)
    requires Shape(s) && LogsArePrefixes(s) && Learning(s, t, k, after)
    ensures t.procs.Keys == t.sent.Keys == t.group && LogsArePrefixes(t)
  {
    hide LogsArePrefixes;
    SameLogs(s, t, after);
  }

  lemma LearningSafe(s: System, t: System, k: Packet, after: Proc)
    requires Shape(s) && NothingLost(s) && Learning(s, t, k, after)
    ensures t.procs.Keys == t.group && NothingLost(t)
  {
    hide NothingLost, PacketOk, ProcShape;
    NothingLostStable(s, t);
  }

  lemma LearningInv(s: System, t: System, k: Packet, after: Proc)
    requires Inv(s) && Learning(s, t, k, after)
    ensures Inv(t)
  {
    hide Clocks, SentNumbered, AllGenuine, NetOk, Stores, AcksSound, LogsArePrefixes, NothingLost, Grows;
    LearningShape(s, t, k, after);
    LearningClocks(s, t, k, after);
    LearningAcks(s, t, k, after);
    LearningStores(s, t, k, after);
    LearningLogs(s, t, k, after);
    LearningSafe(s, t, k, after);
    CarryOver(s, t);
  }

  // ---- steps that neither tick a clock nor learn

  lemma ClocksStable(s: System, t: System)
    requires s.procs.Keys == s.group == t.group == t.procs.Keys && t.trace == s.trace && Clocks(s)
    requires forall p :: p in s.group ==> t.procs[p].clock == s.procs[p].clock
    ensures Clocks(t)
  {
  }

  lemma AcksSoundStable(s: System, t: System)
    requires s.procs.Keys == s.group == t.group == t.procs.Keys && AcksSound(s)
    requires forall p :: p in s.group ==> t.procs[p].acked == s.procs[p].acked
    requires forall p, q :: p in s.group && q in s.group ==> Delivered(s, p, q) <= Delivered(t, p, q)
    ensures AcksSound(t)
  {
    forall p, q, k | p in t.group && q in t.group && q != p && k in t.group ensures AckSound(t, p, q, k) {
      assert AckSound(s, p, q, k);
    }
  }

  lemma StoresStable(s: System, t: System)
    requires s.procs.Keys == s.group == t.group == t.procs.Keys && Stores(s)
    requires forall m :: m in s.born ==> m in t.born
    requires forall p :: p in s.group ==>
      && t.procs[p].acked == s.procs[p].acked && t.procs[p].store <= s.procs[p].store && t.procs[p].id == s.procs[p].id
    ensures Stores(t)
  {
    forall p | p in t.group ensures StoreOk(t, t.procs[p]) { assert StoreOk(s, s.procs[p]); }
  }

  /** Neither the clock nor the acknowledgements of the process that moves change, and it takes back no delivery. */
  ghost predicate Still(s: System, t: System, after: Proc) {
    && OnlyMoved(s, t, after) && s.procs.Keys == s.group && t.trace == s.trace && s.procs[after.id].id == after.id
    && after.clock == s.procs[after.id].clock && after.acked == s.procs[after.id].acked
    && after.number == s.procs[after.id].number
    && forall q :: q in s.group ==> Get(s.procs[after.id].last, q) <= Get(after.last, q)
  }

  lemma StillGrows(s: System, t: System, after: Proc)
    requires Shape(s) && Still(s, t, after)
    ensures Shape(t) && Grows(s, t)
  {
    hide PacketOk, ProcShape, Grows;
    MovedShape(s, t, after);
    MovedGrows(s, t, after);
  }

  lemma StillClocks(s: System, t: System, after: Proc)
    requires Shape(s) && Still(s, t, after) && Clocks(s)
    ensures t.procs.Keys == t.group && Clocks(t)
  {
    hide Clocks;
    ClocksStable(s, t);
  }

  lemma StillAcks(s: System, t: System, after: Proc)
    requires Shape(s) && Still(s, t, after) && AcksSound(s)
    ensures t.procs.Keys == t.group && AcksSound(t)
  {
    hide AcksSound;
    StillGrows(s, t, after);
    AcksSoundStable(s, t);
  }

  lemma StillStores(s: System, t: System, after: Proc)
    requires Shape(s) && Still(s, t, after) && Stores(s) && after.store <= s.procs[after.id].store
    ensures t.procs.Keys == t.group && Stores(t)
  {
    hide Stores;
    StoresStable(s, t);
  }

  lemma StillInv(s: System, t: System, after: Proc)
    requires Shape(s) && Clocks(s) && SentNumbered(s) && AllGenuine(s) && NetOk(s) && AcksSound(s) && Still(s, t, after)
    ensures Shape(t) && Grows(s, t) && Clocks(t) && SentNumbered(t) && AllGenuine(t) && NetOk(t) && AcksSound(t)
  {
    hide Clocks, SentNumbered, AllGenuine, NetOk, AcksSound, Grows, ProcShape;
    StillGrows(s, t, after);
    StillClocks(s, t, after);
    StillAcks(s, t, after);
    CarryOver(s, t);
  }

  lemma StillLogs(s: System, t: System, after: Proc)
    requires Shape(s) && Still(s, t, after) && SameDelivery(s.procs[after.id], after) && LogsArePrefixes(s)
    ensures t.procs.Keys == t.sent.Keys == t.group && LogsArePrefixes(t)
  {
    hide LogsArePrefixes;
    SameLogs(s, t, after);
  }

  lemma StillSafe(s: System, t: System, after: Proc)
    requires Shape(s) && Still(s, t, after) && SameDelivery(s.procs[after.id], after)
    requires s.procs[after.id].store <= after.store && NothingLost(s)
    ensures t.procs.Keys == t.group && NothingLost(t)
  {
    hide NothingLost, PacketOk, ProcShape;
    NothingLostStable(s, t);
  }

  /** A crash, or a suspicion: nothing the invariant speaks of changes. */
  lemma QuietInv(s: System, t: System, after: Proc)
    requires Inv(s) && Still(s, t, after) && SameDelivery(s.procs[after.id], after) && after.store == s.procs[after.id].store
    ensures Inv(t)
  {
    hide Shape, Clocks, SentNumbered, AllGenuine, NetOk, Stores, AcksSound, LogsArePrefixes, NothingLost, Still, Grows;
    StillInv(s, t, after);
    StillStores(s, t, after);
    StillLogs(s, t, after);
    StillSafe(s, t, after);
  }

  // ---- storing a received multicast

  ghost predicate Storing(s: System, t: System, after: Proc, m: Message) {
    && Still(s, t, after) && after == Keep(s.procs[after.id], m)
    && m in s.born && m.kind == MESSAGE && m.sender != after.id && after.Reported(m.sender, m.sender) >= m.number
  }

  lemma StoringStore(s: System, t: System, after: Proc, m: Message)
    requires Storing(s, t, after, m) && StoreOk(s, s.procs[after.id])
    ensures StoreOk(t, after)
  {
    forall w | w in after.store
      ensures w in t.born && w.kind == MESSAGE && (w.sender != after.id ==> after.Reported(w.sender, w.sender) >= w.number)
    {
      assert w == m || w in s.procs[after.id].store;
    }
  }

  lemma StoringStores(s: System, t: System, after: Proc, m: Message)
    requires s.procs.Keys == s.group && Stores(s) && Storing(s, t, after, m)
    ensures t.procs.Keys == t.group && Stores(t)
  {
    forall p | p in t.group ensures StoreOk(t, t.procs[p]) {
      assert StoreOk(s, s.procs[p]);
      if p == after.id {
        StoringStore(s, t, after, m);
      }
    }
  }

  lemma StoringIsStill(s: System, t: System, after: Proc, m: Message)
    requires Storing(s, t, after, m)
    ensures Still(s, t, after) && after.id in s.procs && SameDelivery(s.procs[after.id], after)
    ensures s.procs[after.id].store <= after.store
  {
  }

  lemma StoringInv(s: System, t: System, after: Proc, m: Message)
    requires Inv(s) && Storing(s, t, after, m)
    ensures Inv(t)
  {
    hide Shape, Clocks, SentNumbered, AllGenuine, NetOk, Stores, AcksSound, LogsArePrefixes, NothingLost, Still, Grows;
    hide Storing;
    StoringIsStill(s, t, after, m);
    StillInv(s, t, after);
    StoringStores(s, t, after, m);
    StillLogs(s, t, after);
    StillSafe(s, t, after);
  }

  // ---- delivering a stored multicast that is next in line

  ghost predicate Delivering(s: System, t: System, after: Proc, m: Message) {
    && Still(s, t, after) && m.sender in s.group && m.sender != after.id && m in s.procs[after.id].store
    && after.store == s.procs[after.id].store
    && m.number == Get(s.procs[after.id].last, m.sender) + 1
    && after.last == s.procs[after.id].last[m.sender := m.number]
    && after.log == s.procs[after.id].log + [Delivery(m.sender, m.body)]
  }

  lemma DeliveringIsStill(s: System, t: System, after: Proc, m: Message)
    requires Delivering(s, t, after, m)
    ensures Still(s, t, after) && after.id in s.procs && after.store == s.procs[after.id].store
    ensures m in s.procs[after.id].store && s.procs.Keys == s.group
    ensures forall p, q :: p in s.group && q in s.group ==>
      Delivered(t, p, q) == Delivered(s, p, q) + (if p == after.id && q == m.sender then 1 else 0)
  {
  }

  /** The log stays a prefix: the new body is that of the sender's next multicast. */
  lemma DeliveringLog(s: System, t: System, after: Proc, m: Message, q: Id)
    requires s.procs.Keys == s.sent.Keys == s.group && q in s.group
    requires Delivering(s, t, after, m) && LogIsPrefix(s, after.id, q) && m.kind == MESSAGE && KindOk(s, m)
    ensures t.procs.Keys == t.sent.Keys == t.group && LogIsPrefix(t, after.id, q)
  {
    LogPrefixAppend(s.procs[after.id].log, Delivery(m.sender, m.body), q, s.group);
    if q == m.sender {
      BodiesAppend(s.sent[q], m.number - 1);
    }
  }

  lemma DeliveringLogs(s: System, t: System, after: Proc, m: Message)
    requires s.procs.Keys == s.sent.Keys == s.group
    requires LogsArePrefixes(s) && Delivering(s, t, after, m) && m.kind == MESSAGE && KindOk(s, m)
    ensures t.procs.Keys == t.sent.Keys == t.group && LogsArePrefixes(t)
  {
    hide KindOk;
    forall p, q | p in t.group && q in t.group ensures LogIsPrefix(t, p, q) {
      assert LogIsPrefix(s, p, q);
      if p == after.id {
        DeliveringLog(s, t, after, m, q);
      } else {
        assert t.procs[p] == s.procs[p];
      }
    }
  }

  lemma DeliveringSafe(s: System, t: System, after: Proc, m: Message)
    requires s.procs.Keys == s.group && NothingLost(s) && Delivering(s, t, after, m)
    ensures t.procs.Keys == t.group && NothingLost(t)
  {
    DeliveringIsStill(s, t, after, m);
    forall p, q, i | p in t.group && q in t.group && 1 <= i <= Delivered(t, p, q) ensures Safe(t, p, q, i) {
      if i <= Delivered(s, p, q) {
        assert Safe(s, p, q, i);
        SafeStable(s, t, p, q, i);
      } else {
        assert p == after.id && q == m.sender && i == m.number;
        assert m in after.store && Matches(m, q, i);
      }
    }
  }

  lemma StoredIsGenuine(s: System, p: Proc, m: Message)
    requires s.procs.Keys == s.sent.Keys == s.group && AllGenuine(s) && Stores(s) && p.id in s.group && s.procs[p.id] == p
    requires m in p.store
    ensures m in s.born && m.sender in s.group && Genuine(s, m) && KindOk(s, m) && m.kind == MESSAGE
  {
    assert StoreOk(s, p);
  }

  lemma DeliveringKind(s: System, t: System, after: Proc, m: Message)
    requires Shape(s) && AllGenuine(s) && Stores(s) && Delivering(s, t, after, m)
    ensures m.sender in s.sent && KindOk(s, m) && m.kind == MESSAGE
  {
    hide AllGenuine, Stores, KindOk;
    StoredIsGenuine(s, s.procs[after.id], m);
  }

  lemma DeliveringInv(s: System, t: System, after: Proc, m: Message)
    requires Inv(s) && Delivering(s, t, after, m)
    ensures Inv(t)
  {
    hide Clocks, SentNumbered, AllGenuine, NetOk, Stores, AcksSound, LogsArePrefixes, NothingLost, Still, Grows;
    hide Delivering, Delivered, KindOk, ProcShape;
    DeliveringIsStill(s, t, after, m);
    DeliveringKind(s, t, after, m);
    StillInv(s, t, after);
    StillStores(s, t, after);
    DeliveringLogs(s, t, after, m);
    DeliveringSafe(s, t, after, m);
  }

  // ---- cleaning the store

  ghost predicate Cleaning(s: System, t: System, after: Proc) {
    && Still(s, t, after) && SameDelivery(s.procs[after.id], after)
    && forall m :: m in after.store <==> m in s.procs[after.id].store && !Deletable(s.procs[after.id], m)
  }

  lemma CleaningIsStill(s: System, t: System, after: Proc)
    requires Cleaning(s, t, after)
    ensures Still(s, t, after) && after.id in s.procs && SameDelivery(s.procs[after.id], after)
    ensures after.store <= s.procs[after.id].store
  {
  }

  /** What is deleted has been delivered by everybody. */
  lemma DeletableIsDelivered(s: System, p: Proc, m: Message)
    requires s.procs.Keys == s.sent.Keys == s.group && AcksSound(s) && p.id in s.group && s.procs[p.id] == p
    requires p.acked.Keys == s.group - {p.id} && p.number == |s.sent[p.id]|
    requires m.sender in s.group && KindOk(s, m) && m.kind == MESSAGE && Deletable(p, m)
    ensures EverybodyDelivered(s, m.sender, m.number)
  {
    forall r | r in s.group ensures m.number <= Delivered(s, r, m.sender) {
      if r != p.id {
        assert AckSound(s, p.id, r, m.sender);
        assert r in p.acked;
      }
    }
  }

  lemma CleaningSafeHere(s: System, t: System, after: Proc, q: Id, i: int)
    requires Shape(s) && AcksSound(s) && AllGenuine(s) && Stores(s) && Cleaning(s, t, after) && q in s.group
    requires HasStored(s.procs[after.id], q, i)
    ensures HasStored(after, q, i) || EverybodyDelivered(s, q, i)
  {
    hide AcksSound, AllGenuine, Stores, Deletable, KindOk;
    var p := s.procs[after.id];
    var m :| m in p.store && Matches(m, q, i);
    StoredIsGenuine(s, p, m);
    if Deletable(p, m) {
      DeletableIsDelivered(s, p, m);
    } else {
      assert m in after.store;
    }
  }

  lemma CleaningSafeAt(s: System, t: System, after: Proc, a: Id, q: Id, i: int)
    requires Shape(s) && AcksSound(s) && AllGenuine(s) && Stores(s) && Cleaning(s, t, after)
    requires a in s.group && q in s.group && Safe(s, a, q, i)
    ensures t.procs.Keys == t.group && Safe(t, a, q, i)
  {
    hide AcksSound, AllGenuine, Stores, Deletable, HasStored, EverybodyDelivered, ProcShape;
    if a == after.id && HasStored(s.procs[a], q, i) {
      CleaningSafeHere(s, t, after, q, i);
    }
    if EverybodyDelivered(s, q, i) {
      EverybodyStable(s, t, q, i);
    }
  }

  lemma CleaningSafe(s: System, t: System, after: Proc)
    requires Shape(s) && AcksSound(s) && AllGenuine(s) && Stores(s) && NothingLost(s) && Cleaning(s, t, after)
    ensures t.procs.Keys == t.group && NothingLost(t)
  {
    hide AcksSound, AllGenuine, Stores, Safe, ProcShape;
    forall a, q, i | a in t.group && q in t.group && 1 <= i <= Delivered(t, a, q) ensures Safe(t, a, q, i) {
      assert Delivered(s, a, q) == Delivered(t, a, q);
      assert Safe(s, a, q, i);
      CleaningSafeAt(s, t, after, a, q, i);
    }
  }

  lemma CleaningInv(s: System, t: System, after: Proc)
    requires Inv(s) && Cleaning(s, t, after)
    ensures Inv(t)
  {
    hide Shape, Clocks, SentNumbered, AllGenuine, NetOk, Stores, AcksSound, LogsArePrefixes, NothingLost, Still, Grows;
    hide Cleaning;
    CleaningIsStill(s, t, after);
    StillInv(s, t, after);
    StillStores(s, t, after);
    StillLogs(s, t, after);
    CleaningSafe(s, t, after);
  }
}

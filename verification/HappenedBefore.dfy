/**
 * Timestamps against what really happened: the happened-before relation on the events of a run, in which a packet
 * connects the event that first put it on the network, also a retransmission by a third party, with its receipts.
 */
module HappenedBefore {
  import opened VectorClocks
  import opened Causality
  import opened Handlers
  import opened Network
  import opened Reliability
  import opened Guarantees
  import Invariance

  // ---- the states of a run

  lemma {:induction false} RunPrefix(v: Variant, group: set<Id>, run: seq<Event>, i: nat)
    requires IsRun(v, group, run) && i <= |run|
    ensures IsRun(v, group, run[..i])
    decreases |run|
  {
    hide After, Enabled;
    if i < |run| {
      RunPrefix(v, group, run[..|run| - 1], i);
      assert run[..|run| - 1][..i] == run[..i];
    } else {
      assert run[..i] == run;
    }
  }

  /** The state before event `i`. */
  ghost function State(v: Variant, group: set<Id>, run: seq<Event>, i: nat): System
    requires IsRun(v, group, run) && i <= |run|
  {
    RunPrefix(v, group, run, i);
    After(v, group, run[..i])
  }

  lemma StateStep(v: Variant, group: set<Id>, run: seq<Event>, i: nat)
    requires IsRun(v, group, run) && i < |run|
    ensures Inv(State(v, group, run, i)) && State(v, group, run, i).group == group
    ensures Enabled(v, State(v, group, run, i), run[i])
    ensures State(v, group, run, i + 1) == Apply(v, State(v, group, run, i), run[i])
  {
    hide Inv, Enabled, Apply;
    RunPrefix(v, group, run, i);
    RunPrefix(v, group, run, i + 1);
    assert run[..i + 1][..i] == run[..i];
    RunInv(v, group, run[..i]);
  }

  function Actor(e: Event): Id {
    match e
    case Multicasts(p, _) => p
    case Beats(p) => p
    case Receives(k, _) => k.dest
    case Suspects(p, _) => p
    case Crashes(p) => p
  }

  /** Event `i` puts packet `k` on the network. */
  ghost predicate Puts(v: Variant, group: set<Id>, run: seq<Event>, i: nat, k: Packet)
    requires IsRun(v, group, run)
  {
    i < |run| && k !in State(v, group, run, i).net && k in State(v, group, run, i + 1).net
  }

  /** Event `i` immediately precedes event `j`: the same process earlier, or the sending of the packet received. */
  ghost predicate Link(v: Variant, group: set<Id>, run: seq<Event>, i: nat, j: nat)
    requires IsRun(v, group, run) && j < |run|
  {
    && i < j
    && (Actor(run[i]) == Actor(run[j]) || (run[j].Receives? && Puts(v, group, run, i, run[j].packet)))
  }

  /** Event `i` is event `j` or happened before it. */
  ghost predicate Leads(v: Variant, group: set<Id>, run: seq<Event>, i: nat, j: nat)
    requires IsRun(v, group, run) && j < |run|
    decreases j
  {
    i == j || exists c: nat :: c < j && Link(v, group, run, c, j) && Leads(v, group, run, i, c)
  }

  lemma {:induction false} LeadsTransitive(v: Variant, group: set<Id>, run: seq<Event>, i: nat, j: nat, k: nat)
    requires IsRun(v, group, run) && j < |run| && k < |run|
    requires Leads(v, group, run, i, j) && Leads(v, group, run, j, k)
    ensures Leads(v, group, run, i, k)
    decreases k
  {
    hide Link, IsRun;
    if j != k {
      var c: nat :| c < k && Link(v, group, run, c, k) && Leads(v, group, run, j, c);
      LeadsTransitive(v, group, run, i, j, c);
    }
  }

  lemma LinkLeads(v: Variant, group: set<Id>, run: seq<Event>, i: nat, j: nat, k: nat)
    requires IsRun(v, group, run) && j < |run| && k < |run| && Leads(v, group, run, i, j) && Link(v, group, run, j, k)
    ensures Leads(v, group, run, i, k)
  {
    hide Puts, IsRun;
  }

  lemma {:induction false} LeadsIsEarlier(v: Variant, group: set<Id>, run: seq<Event>, i: nat, j: nat)
    requires IsRun(v, group, run) && j < |run| && Leads(v, group, run, i, j)
    ensures i <= j
    decreases j
  {
    hide IsRun, Puts;
    if i != j {
      var c: nat :| c < j && Link(v, group, run, c, j) && Leads(v, group, run, i, c);
      LeadsIsEarlier(v, group, run, i, c);
    }
  }

  // ---- what one event does

  /** The clock ticks of an event: one of its process, or none. */
  lemma EventTicks(v: Variant, s: System, e: Event)
    requires Inv(s) && Enabled(v, s, e)
    ensures
      var t := Apply(v, s, e);
      if e.Multicasts? then |t.trace| == |s.trace| + 1 && t.trace == s.trace + [Tick(e.p, Sending, t.trace[|s.trace|].clock)]
      else if e.Receives? then
        && e.packet.msg in s.born && |t.trace| == |s.trace| + 1
        && t.trace
           == s.trace
              + [Tick(e.packet.dest, Receiving(e.packet.msg.sender, s.born[e.packet.msg]), t.trace[|s.trace|].clock)]
      else t.trace == s.trace
  {
    hide Inv, HandleReceive, Cast, Beat, SendTo, ChoiceOk, Register;
    if e.Receives? {
      PacketFacts(s, e.packet);
    }
  }

  lemma BornStays(v: Variant, s: System, e: Event)
    requires Enabled(v, s, e)
    ensures s.net <= Apply(v, s, e).net
    ensures forall m :: m in s.born ==> m in Apply(v, s, e).born && Apply(v, s, e).born[m] == s.born[m]
  {
    hide HandleReceive, Cast, Beat, SendTo, ChoiceOk;
  }

  /** Where the message of a new packet comes from: its process just created it, or created or stored it before. */
  ghost predicate Origin(s: System, t: System, p: Id, k: Packet) {
    && k.source == p && k.msg in t.born
    && (k.msg !in s.born ==> k.msg.sender == p && t.born[k.msg] == |t.trace|)
    && (k.msg in s.born ==> k.msg.sender == p || (p in s.procs && k.msg in s.procs[p].store))
  }

  lemma EventPuts(v: Variant, s: System, e: Event, k: Packet)
    requires Inv(s) && Enabled(v, s, e) && k in Apply(v, s, e).net && k !in s.net
    ensures Origin(s, Apply(v, s, e), Actor(e), k)
  {
    hide Inv, HandleReceive, Cast, Beat, ChoiceOk, Register, Origin;
    match e
    case Multicasts(p, text) =>
      InvShape(s, p);
      CastIds(s.procs[p], text);
      Registers(s.born, {Cast(s.procs[p], text).1}, |s.trace| + 1);
      OwnPackets(s, Apply(v, s, e), p, k, Cast(s.procs[p], text).1);
    case Beats(p) =>
      InvShape(s, p);
      BeatIds(s.procs[p]);
      Registers(s.born, {Beat(s.procs[p])}, |s.trace|);
      OwnPackets(s, Apply(v, s, e), p, k, Beat(s.procs[p]));
    case Receives(x, c) =>
      ReceiptPuts(v, s, x, c, k);
    case Suspects(_, _) =>
    case Crashes(_) =>
  }

  lemma CastIds(p: Proc, text: string)
    ensures var (after, m) := Cast(p, text); after.id == p.id == m.sender && m.kind == MESSAGE
  {
    hide Step, Acknowledgements;
  }

  lemma BeatIds(p: Proc)
    ensures Beat(p).sender == p.id
  {
  }

  lemma Registers(born: map<Message, nat>, ms: set<Message>, n: nat)
    ensures forall m :: m in Register(born, ms, n) <==> m in born || m in ms
    ensures forall m :: m in ms && m !in born ==> Register(born, ms, n)[m] == n
  {
  }

  lemma OwnPackets(s: System, t: System, p: Id, k: Packet, m: Message)
    requires k.source == p && k.msg == m && m.sender == p && m in t.born && (m !in s.born ==> t.born[m] == |t.trace|)
    ensures Origin(s, t, p, k)
  {
  }

  lemma ReceiptPuts(v: Variant, s: System, x: Packet, c: Choice, k: Packet)
    requires Inv(s) && Enabled(v, s, Receives(x, c))
    requires k in Apply(v, s, Receives(x, c)).net && k !in s.net
    ensures Origin(s, Apply(v, s, Receives(x, c)), x.dest, k)
  {
    hide Inv, HandleReceive, ChoiceOk, Register;
    InvShape(s, x.dest);
    var p := s.procs[x.dest];
    var out := HandleReceive(v, p, x.msg, c).1;
    OutOfReceipt(v, p, x.msg, c, k);
    Registers(s.born, Contents(out), |s.trace| + 1);
    if k.msg in p.store {
      StoredBorn(s, x.dest, k.msg);
    }
  }

  /** What a receipt sends is an own request or a stored message. */
  lemma OutOfReceipt(v: Variant, p: Proc, m: Message, c: Choice, k: Packet)
    requires ChoiceOk(v, p, m, c) && k in HandleReceive(v, p, m, c).1
    ensures k.source == p.id && (k.msg.sender == p.id || k.msg in p.store)
  {
    hide Update, Step, MergeAcks, Wants, AlreadyReceived, Acknowledgements;
  }

  /** A process comes to store a message of another by receiving it. */
  lemma EventStores(v: Variant, s: System, e: Event, q: Id, m: Message)
    requires Inv(s) && Enabled(v, s, e) && q in s.procs && q in Apply(v, s, e).procs
    requires m in Apply(v, s, e).procs[q].store && m !in s.procs[q].store && m.sender != q
    ensures e.Receives? && e.packet.dest == q && e.packet.msg == m && e.packet in s.net
  {
    hide Inv, HandleReceive, Cast, Beat, ChoiceOk, Register, SendTo;
    match e
    case Multicasts(p, text) =>
      InvShape(s, p);
      CastStore(s.procs[p], text);
    case Beats(_) =>
    case Receives(x, c) =>
      InvShape(s, x.dest);
      ReceiptStores(v, s.procs[x.dest], x.msg, c);
    case Suspects(p, _) => InvShape(s, p);
    case Crashes(_) =>
  }

  lemma CastStore(p: Proc, text: string)
    ensures var (after, m) := Cast(p, text); after.id == p.id == m.sender && after.store == p.store + {m}
  {
    hide Step, Acknowledgements;
  }

  lemma ReceiptStores(v: Variant, p: Proc, m: Message, c: Choice)
    ensures var after := HandleReceive(v, p, m, c).0; after.id == p.id && after.store <= p.store + {m}
  {
    hide Update, Step, MergeAcks, Wants, AlreadyReceived, RequestPackets;
    DeliverKeeps(Keep(Learn(v, p, m), m), c.order);
  }

  // ---- ticks and events

  /** How many ticks happened before event `i`. */
  ghost function TicksBefore(v: Variant, group: set<Id>, run: seq<Event>, i: nat): nat
    requires IsRun(v, group, run) && i <= |run|
  {
    |State(v, group, run, i).trace|
  }

  ghost function Final(v: Variant, group: set<Id>, run: seq<Event>): System
    requires IsRun(v, group, run)
  {
    State(v, group, run, |run|)
  }

  /** The history only grows. */
  lemma {:induction false} Monotone(v: Variant, group: set<Id>, run: seq<Event>, i: nat, j: nat)
    requires IsRun(v, group, run) && i <= j <= |run|
    ensures
      var s, t := State(v, group, run, i), State(v, group, run, j);
      && |s.trace| <= |t.trace| && s.trace == t.trace[..|s.trace|] && s.net <= t.net
      && forall m :: m in s.born ==> m in t.born && t.born[m] == s.born[m]
    decreases j - i
  {
    hide Inv, Enabled, Apply, State, IsRun;
    if i < j {
      Monotone(v, group, run, i, j - 1);
      StateStep(v, group, run, j - 1);
      EventTicks(v, State(v, group, run, j - 1), run[j - 1]);
      BornStays(v, State(v, group, run, j - 1), run[j - 1]);
    }
  }

  /** Tick `c` is the one of event `i`. */
  ghost predicate TickOf(v: Variant, group: set<Id>, run: seq<Event>, i: nat, c: nat)
    requires IsRun(v, group, run)
  {
    && i < |run| && (run[i].Multicasts? || run[i].Receives?)
    && c == TicksBefore(v, group, run, i) && c < |Final(v, group, run).trace|
  }

  /** A tick has the process of its event; of a receipt it also names the message. */
  lemma TickFacts(v: Variant, group: set<Id>, run: seq<Event>, i: nat)
    requires IsRun(v, group, run) && i < |run|
    ensures
      var t := Final(v, group, run);
      && TicksBefore(v, group, run, i) <= TicksBefore(v, group, run, i + 1) <= |t.trace|
      && if run[i].Multicasts? || run[i].Receives? then
           && TicksBefore(v, group, run, i + 1) == TicksBefore(v, group, run, i) + 1
           && TickOf(v, group, run, i, TicksBefore(v, group, run, i))
           && t.trace[TicksBefore(v, group, run, i)].proc == Actor(run[i])
           && (run[i].Multicasts? ==> t.trace[TicksBefore(v, group, run, i)].cause == Sending)
           && (run[i].Receives? ==>
                && run[i].packet.msg in t.born
                && t.trace[TicksBefore(v, group, run, i)].cause
                   == Receiving(run[i].packet.msg.sender, t.born[run[i].packet.msg]))
         else TicksBefore(v, group, run, i + 1) == TicksBefore(v, group, run, i)
  {
    hide Inv, Enabled, Apply, State, IsRun;
    StateStep(v, group, run, i);
    EventTicks(v, State(v, group, run, i), run[i]);
    Monotone(v, group, run, i, i + 1);
    Monotone(v, group, run, i, |run|);
    Monotone(v, group, run, i + 1, |run|);
  }

  /** Every tick is that of some event. */
  lemma {:induction false} EventOfTick(v: Variant, group: set<Id>, run: seq<Event>, n: nat, c: nat) returns (i: nat)
    requires IsRun(v, group, run) && n <= |run| && c < TicksBefore(v, group, run, n)
    ensures i < n && TickOf(v, group, run, i, c)
    decreases n
  {
    hide Inv, State, IsRun, TicksBefore, TickOf;
    if n == 0 {
      NoTicks(v, group, run);
    } else {
      TickFacts(v, group, run, n - 1);
      if c < TicksBefore(v, group, run, n - 1) {
        i := EventOfTick(v, group, run, n - 1, c);
      } else {
        i := n - 1;
      }
    }
  }

  lemma NoTicks(v: Variant, group: set<Id>, run: seq<Event>)
    requires IsRun(v, group, run)
    ensures TicksBefore(v, group, run, 0) == 0 && State(v, group, run, 0).net == {}
    ensures State(v, group, run, 0) == Start(group)
  {
    assert run[..0] == [];
  }

  /** A tick below the ticks before event `n` belongs to an earlier event. */
  lemma TickIsEarlier(v: Variant, group: set<Id>, run: seq<Event>, i: nat, c: nat, n: nat)
    requires IsRun(v, group, run) && TickOf(v, group, run, i, c) && n <= |run| && c < TicksBefore(v, group, run, n)
    ensures i < n
  {
    hide State, IsRun;
    if n <= i {
      Monotone(v, group, run, n, i);
    }
  }

  // ---- what a timestamp covers really happened before

  /** The event that first put a packet on the network. */
  lemma {:induction false} FirstPut(v: Variant, group: set<Id>, run: seq<Event>, n: nat, k: Packet) returns (i: nat)
    requires IsRun(v, group, run) && n <= |run| && k in State(v, group, run, n).net
    ensures i < n && Puts(v, group, run, i, k)
    decreases n
  {
    hide State, IsRun;
    if n == 0 {
      NoTicks(v, group, run);
    } else if k in State(v, group, run, n - 1).net {
      i := FirstPut(v, group, run, n - 1, k);
    } else {
      i := n - 1;
    }
  }

  /** Tick `c`, of event `e`, is one of the creator of `m` before it created `m`. */
  ghost predicate Covered(v: Variant, group: set<Id>, run: seq<Event>, e: nat, c: nat, m: Message)
    requires IsRun(v, group, run)
  {
    var t := Final(v, group, run);
    TickOf(v, group, run, e, c) && m in t.born && c < t.born[m] && t.trace[c].proc == m.sender
  }

  lemma CoveredActor(v: Variant, group: set<Id>, run: seq<Event>, e: nat, c: nat, m: Message)
    requires IsRun(v, group, run) && Covered(v, group, run, e, c, m)
    ensures e < |run| && Actor(run[e]) == m.sender
  {
    hide State, IsRun, TicksBefore;
    TickFacts(v, group, run, e);
  }

  /** What puts a packet on the network comes after everything its message's creator had done before creating it. */
  lemma {:induction false} PutsCovered(
      v: Variant, group: set<Id>, run: seq<Event>, s: nat, k: Packet, e: nat, c: nat)
    requires IsRun(v, group, run) && Puts(v, group, run, s, k) && Covered(v, group, run, e, c, k.msg)
    ensures s < |run| && Actor(run[s]) == k.source && Leads(v, group, run, e, s)
    decreases s, 2
  {
    hide State, IsRun, Final, TickOf, TicksBefore, Inv, Enabled, Apply, Covered;
    var a, b := State(v, group, run, s), State(v, group, run, s + 1);
    StateStep(v, group, run, s);
    EventPuts(v, a, run[s], k);
    CoveredActor(v, group, run, e, c, k.msg);
    if k.msg.sender == k.source {
      PutByCreator(v, group, run, s, k, e, c);
    } else {
      var r := StoreCovered(v, group, run, s, k.source, k.msg, e, c);
      assert Link(v, group, run, r, s);
      LinkLeads(v, group, run, e, r, s);
    }
  }

  lemma PutByCreator(v: Variant, group: set<Id>, run: seq<Event>, s: nat, k: Packet, e: nat, c: nat)
    requires IsRun(v, group, run) && s < |run| && Covered(v, group, run, e, c, k.msg)
    requires Origin(State(v, group, run, s), State(v, group, run, s + 1), Actor(run[s]), k) && k.msg.sender == k.source
    ensures Leads(v, group, run, e, s)
  {
    hide State, IsRun, Inv, Enabled, Apply;
    CoveredActor(v, group, run, e, c, k.msg);
    Monotone(v, group, run, s + 1, |run|);
    Monotone(v, group, run, s, |run|);
    StateStep(v, group, run, s);
    BornBounded(State(v, group, run, s), k.msg);
    Monotone(v, group, run, s, s + 1);
    TickIsEarlier(v, group, run, e, c, s + 1);
    if e != s {
      assert Link(v, group, run, e, s) && Leads(v, group, run, e, e);
    }
  }

  lemma BornBounded(s: System, m: Message)
    requires Inv(s)
    ensures m in s.born ==> s.born[m] <= |s.trace|
  {
    hide Clocks, SentNumbered, NetOk, AcksSound, LogsArePrefixes, NothingLost, Stores, AcksBelow, KindOk;
    if m in s.born {
      Invariance.GenuineOf(s, m);
    }
  }

  /** A process that stores a message of another has had an event after all that the creator had done before. */
  lemma {:induction false} StoreCovered(
      v: Variant, group: set<Id>, run: seq<Event>, n: nat, q: Id, m: Message, e: nat, c: nat) returns (r: nat)
    requires IsRun(v, group, run) && n <= |run| && Covered(v, group, run, e, c, m) && m.sender != q
    requires q in State(v, group, run, n).procs && m in State(v, group, run, n).procs[q].store
    ensures r < n && Actor(run[r]) == q && Leads(v, group, run, e, r)
    decreases n, 1
  {
    hide State, IsRun, Final, TickOf, TicksBefore, Inv, Enabled, Apply, Covered;
    if n == 0 {
      NoTicks(v, group, run);
    } else {
      var a := State(v, group, run, n - 1);
      StateStep(v, group, run, n - 1);
      SameProcs(v, a, run[n - 1]);
      if m in a.procs[q].store {
        r := StoreCovered(v, group, run, n - 1, q, m, e, c);
      } else {
        EventStores(v, a, run[n - 1], q, m);
        r := n - 1;
        ReceiptCovered(v, group, run, r, e, c);
      }
    }
  }

  lemma SameProcs(v: Variant, s: System, e: Event)
    requires Inv(s) && Enabled(v, s, e)
    ensures Apply(v, s, e).procs.Keys == s.procs.Keys
  {
    hide Enabled, Apply, Inv;
    Reliability.ApplyInv(v, s, e);
    ApplyGroup(v, s, e);
    ShapeOf(s);
    ShapeOf(Apply(v, s, e));
  }

  /** A receipt comes after all that the creator of the message had done before creating it. */
  lemma {:induction false} ReceiptCovered(v: Variant, group: set<Id>, run: seq<Event>, j: nat, e: nat, c: nat)
    requires IsRun(v, group, run) && j < |run| && run[j].Receives?
    requires Covered(v, group, run, e, c, run[j].packet.msg)
    ensures Leads(v, group, run, e, j)
    decreases j, 3
  {
    hide State, IsRun, Final, TickOf, TicksBefore, Inv, Apply, Covered, Puts;
    var k := run[j].packet;
    StateStep(v, group, run, j);
    var s := FirstPut(v, group, run, j, k);
    PutsCovered(v, group, run, s, k, e, c);
    assert Link(v, group, run, s, j);
    LinkLeads(v, group, run, e, s, j);
  }

  /** Ticks that cause each other belong to events of which the one leads to the other. */
  lemma {:induction false} CausesLeads(
      v: Variant, group: set<Id>, run: seq<Event>, i: nat, a: nat, j: nat, b: nat)
    requires IsRun(v, group, run) && TickOf(v, group, run, i, a) && TickOf(v, group, run, j, b)
    requires Causes(Final(v, group, run).trace, a, b)
    ensures Leads(v, group, run, i, j)
    decreases b
  {
    hide State, IsRun, Inv;
    var t := Final(v, group, run).trace;
    if a == b {
      SameEvent(v, group, run, i, j, a);
    } else {
      var c :| 0 <= c < b && Edge(t, c, b) && Causes(t, a, c);
      var e := EventOfTick(v, group, run, |run|, c);
      CausesLeads(v, group, run, i, a, e, c);
      EdgeLeads(v, group, run, e, c, j, b);
      LeadsTransitive(v, group, run, i, e, j);
    }
  }

  lemma SameEvent(v: Variant, group: set<Id>, run: seq<Event>, i: nat, j: nat, a: nat)
    requires IsRun(v, group, run) && TickOf(v, group, run, i, a) && TickOf(v, group, run, j, a)
    ensures i == j
  {
    hide State, IsRun, Final, TicksBefore;
    TickFacts(v, group, run, i);
    TickFacts(v, group, run, j);
    TickEquals(v, group, run, i, a);
    TickEquals(v, group, run, j, a);
    TickIsEarlier(v, group, run, i, a, j + 1);
    TickIsEarlier(v, group, run, j, a, i + 1);
  }

  lemma TickEquals(v: Variant, group: set<Id>, run: seq<Event>, i: nat, a: nat)
    requires IsRun(v, group, run) && TickOf(v, group, run, i, a)
    ensures i < |run| && a == TicksBefore(v, group, run, i) && a < |Final(v, group, run).trace|
    ensures run[i].Multicasts? || run[i].Receives?
  {
    hide State, IsRun;
  }

  lemma EdgeLeads(v: Variant, group: set<Id>, run: seq<Event>, e: nat, c: nat, j: nat, b: nat)
    requires IsRun(v, group, run) && TickOf(v, group, run, e, c) && TickOf(v, group, run, j, b)
    requires Edge(Final(v, group, run).trace, c, b)
    ensures Leads(v, group, run, e, j)
  {
    hide State, IsRun, Puts, TicksBefore;
    var t := Final(v, group, run);
    TickFacts(v, group, run, e);
    TickFacts(v, group, run, j);
    TickIsEarlier(v, group, run, e, c, j);
    if t.trace[c].proc == t.trace[b].proc {
      assert Link(v, group, run, e, j) && Leads(v, group, run, e, e);
    } else {
      assert Covered(v, group, run, e, c, run[j].packet.msg);
      ReceiptCovered(v, group, run, j, e, c);
    }
  }

  // ---- without retransmissions the timestamps cover everything

  /** Every packet that is received went out when its message was created. */
  ghost predicate Immediate(v: Variant, group: set<Id>, run: seq<Event>)
    requires IsRun(v, group, run)
  {
    forall i, j :: 0 <= i < j < |run| && run[j].Receives? && Puts(v, group, run, i, run[j].packet) ==>
      run[j].packet.msg !in State(v, group, run, i).born
  }

  /** After event `j` its process knows of every tick whose event leads to it. */
  lemma {:induction false} LeadsKnows(v: Variant, group: set<Id>, run: seq<Event>, i: nat, a: nat, j: nat)
    requires IsRun(v, group, run) && Immediate(v, group, run) && TickOf(v, group, run, i, a)
    requires j < |run| && Leads(v, group, run, i, j)
    ensures
      TicksBefore(v, group, run, j + 1) <= |Final(v, group, run).trace|
      && Knows(Final(v, group, run).trace, TicksBefore(v, group, run, j + 1), Actor(run[j]), a)
    decreases j
  {
    hide State, IsRun, Inv, Final, TicksBefore, Immediate, Puts, TickOf, Causes;
    var t := Final(v, group, run).trace;
    TickFacts(v, group, run, j);
    TickEquals(v, group, run, i, a);
    if i == j {
      SelfCause(t, a);
    } else {
      var c: nat :| c < j && Link(v, group, run, c, j) && Leads(v, group, run, i, c);
      LeadsKnows(v, group, run, i, a, c);
      TickFacts(v, group, run, c);
      TicksGrow(v, group, run, c + 1, j + 1);
      var x :| 0 <= x < TicksBefore(v, group, run, c + 1) && t[x].proc == Actor(run[c]) && Causes(t, a, x);
      if Actor(run[c]) != Actor(run[j]) {
        ImmediateEdge(v, group, run, c, j, x);
        CausesNext(t, a, x, TicksBefore(v, group, run, j));
      }
    }
  }

  lemma SelfCause(t: Trace, a: nat)
    requires a < |t|
    ensures Causes(t, a, a)
  {
  }

  lemma CausesNext(t: Trace, a: nat, x: nat, b: nat)
    requires x < b < |t| && Causes(t, a, x) && Edge(t, x, b)
    ensures Causes(t, a, b)
  {
  }

  lemma TicksGrow(v: Variant, group: set<Id>, run: seq<Event>, i: nat, j: nat)
    requires IsRun(v, group, run) && i <= j <= |run|
    ensures TicksBefore(v, group, run, i) <= TicksBefore(v, group, run, j)
  {
    hide State, IsRun;
    Monotone(v, group, run, i, j);
  }

  /** The tick of a receipt has an edge from every tick that its sender had when it created the message. */
  lemma ImmediateEdge(v: Variant, group: set<Id>, run: seq<Event>, s: nat, j: nat, x: nat)
    requires IsRun(v, group, run) && Immediate(v, group, run)
    requires s < j < |run| && run[j].Receives? && Puts(v, group, run, s, run[j].packet)
    requires x < TicksBefore(v, group, run, s + 1) <= |Final(v, group, run).trace|
    requires Final(v, group, run).trace[x].proc == Actor(run[s])
    ensures
      var b := TicksBefore(v, group, run, j);
      x < b < |Final(v, group, run).trace| && Edge(Final(v, group, run).trace, x, b)
  {
    hide State, IsRun, Inv, Enabled, Apply;
    var k := run[j].packet;
    StateStep(v, group, run, s);
    EventPuts(v, State(v, group, run, s), run[s], k);
    Monotone(v, group, run, s + 1, |run|);
    TickFacts(v, group, run, j);
    TicksGrow(v, group, run, s + 1, j);
  }

  // ---- the theorem

  /** The message that event `i` multicasts. */
  ghost function MulticastOf(v: Variant, group: set<Id>, run: seq<Event>, i: nat): Message
    requires IsRun(v, group, run) && i < |run| && run[i].Multicasts?
    requires run[i].p in State(v, group, run, i).procs
  {
    Cast(State(v, group, run, i).procs[run[i].p], run[i].text).1
  }

  lemma MulticastTick(v: Variant, group: set<Id>, run: seq<Event>, i: nat)
    requires IsRun(v, group, run) && i < |run| && run[i].Multicasts?
    ensures run[i].p in State(v, group, run, i).procs
    ensures
      var t, c := Final(v, group, run), TicksBefore(v, group, run, i);
      && Inv(t) && TickOf(v, group, run, i, c) && c < |t.trace|
      && t.trace[c].clock == MulticastOf(v, group, run, i).clock
  {
    hide Inv, IsRun, State;
    StateStep(v, group, run, i);
    TickFacts(v, group, run, i);
    Monotone(v, group, run, i + 1, |run|);
    RunPrefix(v, group, run, |run|);
    FinalInv(v, group, run);
    CastClock(State(v, group, run, i), v, run[i]);
  }

  lemma FinalInv(v: Variant, group: set<Id>, run: seq<Event>)
    requires IsRun(v, group, run)
    ensures Inv(Final(v, group, run)) && Final(v, group, run).group == group
  {
    hide Inv, IsRun, After;
    assert run[..|run|] == run;
    RunInv(v, group, run);
  }

  lemma CastClock(s: System, v: Variant, e: Event)
    requires Enabled(v, s, e) && e.Multicasts?
    ensures
      var t := Apply(v, s, e);
      |t.trace| == |s.trace| + 1 && t.trace[|s.trace|].clock == Cast(s.procs[e.p], e.text).1.clock
  {
    hide SendTo, Register, Acknowledgements;
  }

  /**
   * If the timestamp of one multicast is BEFORE that of another, the first really led to the second, through whatever
   * relays. Without retransmissions the converse holds, too.
   */
  lemma TimestampsFollowEvents(v: Variant, group: set<Id>, run: seq<Event>, i: nat, j: nat)
    requires IsRun(v, group, run) && i < |run| && j < |run| && run[i].Multicasts? && run[j].Multicasts?
    ensures run[i].p in State(v, group, run, i).procs && run[j].p in State(v, group, run, j).procs
    ensures
      var before := Relation(MulticastOf(v, group, run, i).clock, MulticastOf(v, group, run, j).clock) == BEFORE;
      && (before ==> i != j && Leads(v, group, run, i, j))
      && (Immediate(v, group, run) ==> (before <==> i != j && Leads(v, group, run, i, j)))
  {
    hide State, IsRun, Inv, Relation, ValidTrace, Causes, Immediate, Leads, TickOf, TicksBefore, MulticastOf, Final;
    MulticastTick(v, group, run, i);
    MulticastTick(v, group, run, j);
    var t := Final(v, group, run);
    var a, b := TicksBefore(v, group, run, i), TicksBefore(v, group, run, j);
    TraceOk(t);
    BeforeIsHappenedBefore(t.group, t.trace, a, b);
    if a == b {
      SameEvent(v, group, run, i, j, a);
    }
    if Causes(t.trace, a, b) {
      CausesLeads(v, group, run, i, a, j, b);
    }
    if Immediate(v, group, run) && Leads(v, group, run, i, j) {
      LeadsKnows(v, group, run, i, a, j);
      TickFacts(v, group, run, j);
      KnowsUnfolds(t.trace, b + 1, Actor(run[j]), a);
    }
  }
}

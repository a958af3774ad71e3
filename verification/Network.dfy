/**
 * A fixed group of multicast processes and the network between them, as a step machine. A packet once sent stays in
 * `net`, so that any packet may arrive any number of times, in any order, or never.
 */
module Network {
  import opened VectorClocks
  import opened Ordering
  import opened Causality
  import opened Handlers
  import Decimal

  /**
   * `sent`, `born` and `trace` are history: every member's multicasts in order, how many clock ticks had happened when
   * a message was created, and the clock ticks themselves.
   */
  datatype System = System(
    group: set<Id>, procs: map<Id, Proc>, crashed: set<Id>, net: set<Packet>,
    sent: map<Id, seq<Message>>, born: map<Message, nat>, trace: Trace)

  /** A suspicion comes from a failure timer; a process has one for each other member. */
  datatype Event =
    | Multicasts(p: Id, text: string)
    | Beats(p: Id)
    | Receives(packet: Packet, choice: Choice)
    | Suspects(p: Id, q: Id)
    | Crashes(p: Id)

  function Start(group: set<Id>): System {
    System(group, map p | p in group :: InitialProc(p, group), {}, {}, map p | p in group :: [], map[], [])
  }

  predicate Alive(s: System, p: Id) {
    p in s.procs && p !in s.crashed
  }

  ghost predicate Enabled(v: Variant, s: System, e: Event) {
    match e
    case Multicasts(p, _) => Alive(s, p)
    case Beats(p) => Alive(s, p)
    case Receives(k, c) => k in s.net && Alive(s, k.dest) && ChoiceOk(v, s.procs[k.dest], k.msg, c)
    case Suspects(p, q) => Alive(s, p) && q in s.group && q != p
    case Crashes(p) => Alive(s, p)
  }

  function Put(s: System, p: Proc): System {
    s.(procs := s.procs[p.id := p])
  }

  function Register(born: map<Message, nat>, ms: set<Message>, n: nat): map<Message, nat> {
    map m | m in born.Keys + ms :: if m in born then born[m] else n
  }

  /** The messages `ms` come into being and `packets` go out. */
  function Emit(s: System, ms: set<Message>, packets: set<Packet>): System {
    s.(net := s.net + packets, born := Register(s.born, ms, |s.trace|))
  }

  function Contents(packets: set<Packet>): set<Message> {
    set k | k in packets :: k.msg
  }

  function BirthOf(s: System, m: Message): nat {
    if m in s.born then s.born[m] else 0
  }

  function AddTick(s: System, x: Tick): System {
    s.(trace := s.trace + [x])
  }

  ghost function Apply(v: Variant, s: System, e: Event): System
    requires Enabled(v, s, e)
  {
    match e
    case Multicasts(p, text) =>
      var (after, m) := Cast(s.procs[p], text);
      var s1 := AddTick(Put(s, after), Tick(p, Sending, after.clock));
      var s2 := s1.(sent := s1.sent[p := (if p in s1.sent then s1.sent[p] else []) + [m]]);
      Emit(s2, {m}, SendTo(after, after.last.Keys, m))
    case Beats(p) =>
      var m := Beat(s.procs[p]);
      Emit(s, {m}, SendTo(s.procs[p], s.procs[p].last.Keys, m))
    case Receives(k, c) =>
      var (after, out) := HandleReceive(v, s.procs[k.dest], k.msg, c);
      var s1 := AddTick(Put(s, after), Tick(k.dest, Receiving(k.msg.sender, BirthOf(s, k.msg)), after.clock));
      Emit(s1, Contents(out), out)
    case Suspects(p, q) =>
      Put(s, s.procs[p].(failed := s.procs[p].failed + {q}))
    case Crashes(p) =>
      s.(crashed := s.crashed + {p})
  }

  /** `run` can happen from the start, one event after the other. */
  ghost predicate IsRun(v: Variant, group: set<Id>, run: seq<Event>)
    decreases |run|, 0
  {
    run == [] || (IsRun(v, group, run[..|run| - 1]) && Enabled(v, After(v, group, run[..|run| - 1]), run[|run| - 1]))
  }

  ghost function After(v: Variant, group: set<Id>, run: seq<Event>): System
    requires IsRun(v, group, run)
    decreases |run|, 1
  {
    if run == [] then Start(group) else Apply(v, After(v, group, run[..|run| - 1]), run[|run| - 1])
  }

  // ---- what a delivery log says

  /** The bodies delivered from `q`, in order. */
  function From(log: seq<Delivery>, q: Id): seq<string> {
    if log == [] then []
    else From(log[..|log| - 1], q) + if log[|log| - 1].source == q then [log[|log| - 1].body] else []
  }

  function Bodies(ms: seq<Message>): seq<string> {
    if ms == [] then [] else Bodies(ms[..|ms| - 1]) + [ms[|ms| - 1].body]
  }

  // ---- the invariant

  function Delivered(s: System, p: Id, q: Id): int
    requires p in s.procs
  {
    s.procs[p].Delivered(q)
  }

  ghost predicate ProcShape(group: set<Id>, p: Proc) {
    && p.id in group && p.last.Keys == group - {p.id} && p.acked.Keys == group - {p.id}
  }

  ghost predicate Shape(s: System) {
    && s.procs.Keys == s.group && s.sent.Keys == s.group
    && (forall p :: p in s.group ==> s.procs[p].id == p && ProcShape(s.group, s.procs[p]))
    && (forall p :: p in s.group ==> s.procs[p].number == |s.sent[p]|)
  }

  ghost predicate Clocks(s: System)
    requires s.procs.Keys == s.group
  {
    && ValidTrace(s.group, s.trace)
    && forall p :: p in s.group ==> s.procs[p].clock == Current(s.group, s.trace, p)
  }

  ghost predicate SentOk(s: System, p: Id, i: int)
    requires p in s.sent && 0 <= i < |s.sent[p]|
  {
    var m := s.sent[p][i];
    m in s.born && m.kind == MESSAGE && m.sender == p && m.number == i + 1
  }

  ghost predicate SentNumbered(s: System)
    requires s.sent.Keys == s.group
  {
    forall p, i {:trigger SentOk(s, p, i)} :: p in s.group && 0 <= i < |s.sent[p]| ==> SentOk(s, p, i)
  }

  /** A message carries its sender's clock as of its creation; a multicast is created at a tick of its own. */
  ghost predicate Stamped(group: set<Id>, t: Trace, born: map<Message, nat>, m: Message) {
    && m.sender in group && m in born && born[m] <= |t|
    && m.clock == Current(group, t[..born[m]], m.sender)
    && (m.kind == MESSAGE ==> 0 < born[m] && t[born[m] - 1] == Tick(m.sender, Sending, m.clock))
  }

  /** What a message acknowledges, its sender has delivered. */
  ghost predicate AcksBelow(s: System, m: Message)
    requires m.sender in s.procs
  {
    m.acks.Keys == s.group && forall k :: k in s.group ==> m.acks[k] <= Delivered(s, m.sender, k)
  }

  ghost predicate KindOk(s: System, m: Message)
    requires m.sender in s.sent
  {
    match m.kind
    case HEARTBEAT => Get(m.acks, m.sender) == m.number && m.body == ""
    case RETRANSREQUEST => exists from :: from in s.group && from != m.sender && m.body == Decimal.Show(from)
    case MESSAGE =>
      && 1 <= m.number <= |s.sent[m.sender]| && s.sent[m.sender][m.number - 1] == m
      && Get(m.acks, m.sender) == m.number
  }

  ghost predicate Genuine(s: System, m: Message)
    requires s.procs.Keys == s.sent.Keys == s.group
  {
    Stamped(s.group, s.trace, s.born, m) && AcksBelow(s, m) && KindOk(s, m)
  }

  ghost predicate AllGenuine(s: System)
    requires s.procs.Keys == s.sent.Keys == s.group
  {
    forall m :: m in s.born ==> Genuine(s, m)
  }

  ghost predicate PacketOk(s: System, k: Packet) {
    k.source in s.group && k.dest in s.group && k.source != k.dest && k.msg in s.born && k.msg.sender != k.dest
  }

  ghost predicate NetOk(s: System) {
    forall k :: k in s.net ==> PacketOk(s, k)
  }

  /** What a process stores: multicasts, whose senders it knows to have delivered them. */
  ghost predicate StoreOk(s: System, p: Proc) {
    forall m :: m in p.store ==>
      m in s.born && m.kind == MESSAGE && (m.sender != p.id ==> p.Reported(m.sender, m.sender) >= m.number)
  }

  ghost predicate Stores(s: System)
    requires s.procs.Keys == s.group
  {
    forall p :: p in s.group ==> StoreOk(s, s.procs[p])
  }

  ghost predicate AckSound(s: System, p: Id, q: Id, k: Id)
    requires p in s.procs && q in s.procs
  {
    s.procs[p].Reported(q, k) <= Delivered(s, q, k)
  }

  /** Acknowledgement soundness: what `p` has recorded of `q` is no more than `q` has delivered. */
  ghost predicate AcksSound(s: System)
    requires s.procs.Keys == s.group
  {
    forall p, q, k {:trigger AckSound(s, p, q, k)} :: p in s.group && q in s.group && q != p && k in s.group ==>
      AckSound(s, p, q, k)
  }

  ghost predicate Within(s: System, p: Id, q: Id)
    requires p in s.procs && q in s.sent
  {
    0 <= Delivered(s, p, q) <= |s.sent[q]|
  }

  predicate SourcesIn(log: seq<Delivery>, group: set<Id>) {
    forall d :: d in log ==> d.source in group
  }

  ghost predicate LogIsPrefix(s: System, p: Id, q: Id)
    requires p in s.procs && q in s.sent
  {
    && SourcesIn(s.procs[p].log, s.group) && Within(s, p, q)
    && From(s.procs[p].log, q) == Bodies(s.sent[q][..Delivered(s, p, q)])
  }

  /** FIFO prefix delivery; nothing comes from outside the group. */
  ghost predicate LogsArePrefixes(s: System)
    requires s.procs.Keys == s.sent.Keys == s.group
  {
    forall p, q {:trigger LogIsPrefix(s, p, q)} :: p in s.group && q in s.group ==> LogIsPrefix(s, p, q)
  }

  ghost predicate EverybodyDelivered(s: System, q: Id, i: int)
    requires s.procs.Keys == s.group
  {
    forall r :: r in s.group ==> i <= Delivered(s, r, q)
  }

  /** Process `p` can still retransmit message `i` of `q`, or nobody needs it any more. */
  ghost predicate Safe(s: System, p: Id, q: Id, i: int)
    requires s.procs.Keys == s.group && p in s.group
  {
    HasStored(s.procs[p], q, i) || EverybodyDelivered(s, q, i)
  }

  /** Safe garbage collection: what a process delivered and no longer stores, everybody has delivered. */
  ghost predicate NothingLost(s: System)
    requires s.procs.Keys == s.group
  {
    forall p, q, i {:trigger Safe(s, p, q, i)} ::
      p in s.group && q in s.group && 1 <= i <= Delivered(s, p, q) ==> Safe(s, p, q, i)
  }

  ghost predicate Inv(s: System) {
    && Shape(s) && Clocks(s) && SentNumbered(s) && AllGenuine(s) && NetOk(s) && Stores(s)
    && AcksSound(s) && LogsArePrefixes(s) && NothingLost(s)
  }
}

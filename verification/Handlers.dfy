/**
 * One process of the reliable multicast (MP1/mcast.cc and MP1/nmcast.cc): its state and, for every handler,
 * the function from the state before to the state after and the packets sent.
 */
module Handlers {
  import opened VectorClocks
  import opened Ordering
  import Decimal

  /** mcast.cc, or nmcast.cc with its store-driven retransmission requests. */
  datatype Variant = Mcast | Nmcast

  datatype Kind = HEARTBEAT | RETRANSREQUEST | MESSAGE

  datatype Message = Message(
    sender: Id, number: int, clock: Clock, kind: Kind, body: string, acks: map<Id, int>, failed: set<Id>)

  datatype Packet = Packet(source: Id, dest: Id, msg: Message)

  /** One upcall `deliver(source, body)`. */
  datatype Delivery = Delivery(source: Id, body: string)

  /**
   * The process state. `last` and `acked` hold, for every other member, the number of the last message delivered
   * from it and the acknowledgement vector it has reported; `log` is the sequence of delivery upcalls so far.
   */
  datatype Proc = Proc(
    id: Id, number: int, clock: Clock, failed: set<Id>,
    last: map<Id, int>, acked: map<Id, map<Id, int>>, store: set<Message>, log: seq<Delivery>)
  {
    /** How many messages of `q` this process has delivered. */
    function Delivered(q: Id): int {
      if q == id then number else Get(last, q)
    }

    /** What member `q` has reported about the messages of `k`. */
    function Reported(q: Id, k: Id): int {
      if q in acked then Get(acked[q], k) else 0
    }
  }

  datatype Lookup = NotStored | Stored(msg: Message)

  /** What one receive leaves open: the order in which undelivered messages are tried, and which match is found. */
  datatype Choice = Choice(order: seq<Message>, found: Lookup)

  // ---- state before any traffic

  function InitialProc(own: Id, group: set<Id>): Proc {
    Proc(own, 0, Zero(group), {}, map k | k in group - {own} :: 0, map k | k in group - {own} :: map[], {}, [])
  }

  // ---- sending

  function Acknowledgements(p: Proc): map<Id, int> {
    p.last[p.id := p.number]
  }

  function NewMessage(p: Proc, number: int, kind: Kind, body: string): Message {
    Message(p.id, number, p.clock, kind, body, Acknowledgements(p), p.failed)
  }

  /** Packets to those of `targets` that are not believed to have failed. */
  function SendTo(p: Proc, targets: set<Id>, m: Message): set<Packet> {
    set k | k in targets && k !in p.failed :: Packet(p.id, k, m)
  }

  function DeliverOwn(p: Proc, m: Message): Proc {
    p.(log := p.log + [Delivery(m.sender, m.body)])
  }

  /** The process and its message after `multicast(text)`. */
  function Cast(p: Proc, text: string): (Proc, Message) {
    var p1 := p.(clock := Step(p.clock, p.id), number := p.number + 1);
    var m := NewMessage(p1, p1.number, MESSAGE, text);
    (DeliverOwn(p1, m).(store := p1.store + {m}), m)
  }

  function Beat(p: Proc): Message {
    NewMessage(p, p.number, HEARTBEAT, "")
  }

  // ---- receiving

  /** `deliveryAckList` after the element-wise maximum with `list`. */
  function MergeAcks(acks: map<Id, int>, list: map<Id, int>): map<Id, int> {
    map k | k in acks.Keys + list.Keys :: if k in list && Get(acks, k) < list[k] then list[k] else Get(acks, k)
  }

  /** What every received message teaches, before its kind is looked at. */
  function Learn(v: Variant, p: Proc, m: Message): Proc {
    p.(clock := Update(Step(p.clock, p.id), m.clock, p.id),
       acked := if m.sender in p.acked then p.acked[m.sender := MergeAcks(p.acked[m.sender], m.acks)] else p.acked,
       failed := if v == Mcast then p.failed + m.failed else p.failed)
  }

  predicate Matches(m: Message, from: Id, number: int) {
    m.sender == from && m.number == number
  }

  ghost predicate IsLookup(store: set<Message>, from: Id, number: int, found: Lookup) {
    match found
    case Stored(m) => m in store && Matches(m, from, number)
    case NotStored => forall m :: m in store ==> !Matches(m, from, number)
  }

  function HasStored(p: Proc, from: Id, number: int): bool {
    exists m :: m in p.store && Matches(m, from, number)
  }

  /** Those known to have delivered message `number` of `from`. */
  function Holders(p: Proc, from: Id, number: int): set<Id> {
    set q | q in p.acked && Get(p.acked[q], from) >= number
  }

  /** One missing message: message `i` of `from`, to be asked of `targets`. */
  datatype Want = Want(from: Id, number: int, targets: set<Id>)

  function Request(p: Proc, w: Want): Message {
    NewMessage(p, w.number, RETRANSREQUEST, Decimal.Show(w.from))
  }

  /** mcast.cc: the gap before `m`, asked of everyone known to have delivered `m` itself. */
  function GapWants(p: Proc, m: Message): set<Want> {
    set i | Get(p.last, m.sender) < i < m.number :: Want(m.sender, i, Holders(p, m.sender, m.number))
  }

  /** Number `i` of `from` precedes everything stored from `from`, and something is stored. */
  predicate BelowStored(p: Proc, from: Id, i: int) {
    && (exists m :: m in p.store && m.sender == from)
    && forall m :: m in p.store && m.sender == from ==> i < m.number
  }

  /** nmcast.cc: for each other member, the numbers between the last delivered and the least stored one. */
  ghost function StoreWants(p: Proc): set<Want> {
    set m, i | m in p.store && m.sender != p.id && Get(p.last, m.sender) < i < m.number && BelowStored(p, m.sender, i) ::
      Want(m.sender, i, Holders(p, m.sender, i))
  }

  ghost function Wants(v: Variant, p: Proc, m: Message): set<Want> {
    if v == Mcast then GapWants(p, m) else StoreWants(p)
  }

  ghost function RequestPackets(p: Proc, wants: set<Want>): set<Packet> {
    set w, k | w in wants && k in w.targets && k !in p.failed :: Packet(p.id, k, Request(p, w))
  }

  ghost function Undelivered(p: Proc): set<Message> {
    set m | m in p.store && m.sender != p.id && m.number > Get(p.last, m.sender)
  }

  function TryDeliver(p: Proc, m: Message): Proc {
    if m.number == Get(p.last, m.sender) + 1
    then p.(last := p.last[m.sender := m.number], log := p.log + [Delivery(m.sender, m.body)])
    else p
  }

  function DeliverInOrder(p: Proc, order: seq<Message>): Proc {
    if order == [] then p else TryDeliver(DeliverInOrder(p, order[..|order| - 1]), order[|order| - 1])
  }

  /** Delivered here, and reported as delivered by every other member. */
  predicate Deletable(p: Proc, m: Message) {
    && (m.sender == p.id || m.number <= Get(p.last, m.sender))
    && forall q :: q in p.acked ==> m.number <= Get(p.acked[q], m.sender)
  }

  ghost function Clean(p: Proc): Proc {
    p.(store := set m | m in p.store && !Deletable(p, m))
  }

  ghost predicate AlreadyReceived(p: Proc, m: Message) {
    m.number <= Get(p.last, m.sender) || HasStored(p, m.sender, m.number)
  }

  function Keep(p: Proc, m: Message): Proc {
    p.(store := p.store + {m})
  }

  ghost predicate ChoiceOk(v: Variant, p: Proc, m: Message, c: Choice) {
    var p1 := Learn(v, p, m);
    match m.kind
    case RETRANSREQUEST =>
      var from := Decimal.Parse(m.body);
      if from.Number? then IsLookup(p1.store, from.value, m.number, c.found) else c.found == NotStored
    case MESSAGE => AlreadyReceived(p1, m) || Lists(c.order, Undelivered(Keep(p1, m)))
    case HEARTBEAT => true
  }

  /** The whole receive handler. */
  ghost function HandleReceive(v: Variant, p: Proc, m: Message, c: Choice): (Proc, set<Packet>) {
    var p1 := Learn(v, p, m);
    match m.kind
    case RETRANSREQUEST =>
      (p1, if c.found.Stored? then SendTo(p1, {m.sender}, c.found.msg) else {})
    case MESSAGE =>
      if AlreadyReceived(p1, m) then (p1, {})
      else
        var p2 := Keep(p1, m);
        (Clean(DeliverInOrder(p2, c.order)), RequestPackets(p2, Wants(v, p2, m)))
    case HEARTBEAT =>
      (p1, RequestPackets(p1, Wants(v, p1, m)))
  }

  /** The assertion in retransmissionRequests: whoever is asked for, someone is known to have it. */
  ghost predicate AssertionsHold(v: Variant, p: Proc, m: Message) {
    var p1 := Learn(v, p, m);
    match m.kind
    case RETRANSREQUEST => true
    case MESSAGE => AlreadyReceived(p1, m) || forall w :: w in Wants(v, Keep(p1, m), m) ==> w.targets != {}
    case HEARTBEAT => forall w :: w in Wants(v, p1, m) ==> w.targets != {}
  }
}

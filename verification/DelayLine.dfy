/**
 * The delay line in front of the socket (MP1/unicast.cc): a linked list of packets in the order of their delivery
 * times, into which usend inserts and which the alarm handler drains.
 */
module DelayLine {
  import opened Codec

  const MINDELAY := 500000.0
  const MAXDELAY := 10000000.0

  datatype Datagram = Datagram(time: real, dest: int, bytes: seq<Byte>)

  /** A call of sendto at time `at`. */
  datatype Sending = Sending(at: real, packet: Datagram)

  datatype Line = Line(queue: seq<Datagram>, sent: seq<Sending>)

  // ---- what the two operations compute

  predicate Sorted(q: seq<Datagram>) {
    forall i, j :: 0 <= i < j < |q| ==> q[i].time <= q[j].time
  }

  function Insert(q: seq<Datagram>, d: Datagram): seq<Datagram> {
    if q == [] || q[0].time >= d.time then [d] + q else [q[0]] + Insert(q[1..], d)
  }

  /** The length of the prefix that is due. */
  function Due(q: seq<Datagram>, now: real): (n: nat)
    ensures n <= |q|
  {
    if q == [] || q[0].time > now then 0 else 1 + Due(q[1..], now)
  }

  function SentAt(q: seq<Datagram>, now: real): seq<Sending> {
    if q == [] then [] else [Sending(now, q[0])] + SentAt(q[1..], now)
  }

  function Drain(l: Line, now: real): Line {
    var n := Due(l.queue, now);
    Line(l.queue[n..], l.sent + SentAt(l.queue[..n], now))
  }

  /** The delay for a random draw between 0 and 1. */
  function Delay(draw: real): real {
    MINDELAY + (MAXDELAY - MINDELAY) * draw
  }

  /** Half a second to ten seconds, in proportion to the draw. */
  lemma DelayBounds(draw: real)
    requires 0.0 <= draw <= 1.0
    ensures 500000.0 <= Delay(draw) <= 10000000.0
    ensures Delay(0.0) == 500000.0 && Delay(0.5) == 5250000.0 && Delay(1.0) == 10000000.0
  {
    assert 0.0 <= (MAXDELAY - MINDELAY) * draw <= MAXDELAY - MINDELAY;
  }

  function SendLater(l: Line, now: real, draw: real, dropped: bool, dest: int, bytes: seq<Byte>): Line {
    if dropped then l else l.(queue := Insert(l.queue, Datagram(now + Delay(draw), dest, bytes)))
  }

  // ---- insertion and draining

  lemma {:induction false} InsertPosition(q: seq<Datagram>, d: Datagram) returns (k: nat)
    requires Sorted(q)
    ensures k <= |q| && Insert(q, d) == q[..k] + [d] + q[k..]
    ensures forall i :: 0 <= i < k ==> q[i].time < d.time
    ensures forall i :: k <= i < |q| ==> d.time <= q[i].time
  {
    if q == [] || q[0].time >= d.time {
      k := 0;
    } else {
      var j := InsertPosition(q[1..], d);
      k := j + 1;
      assert q[..k] == [q[0]] + q[1..][..j];
      assert q[k..] == q[1..][j..];
      forall i | k <= i < |q| ensures d.time <= q[i].time {
        assert q[i] == q[1..][i - 1];
      }
      forall i | 0 <= i < k ensures q[i].time < d.time {
        if i > 0 {
          assert q[i] == q[1..][i - 1];
        }
      }
    }
  }

  /** Insertion keeps the order and adds exactly the new packet, in front of those with the same time. */
  lemma InsertKeepsOrder(q: seq<Datagram>, d: Datagram)
    requires Sorted(q)
    ensures Sorted(Insert(q, d)) && multiset(Insert(q, d)) == multiset(q) + multiset{d}
  {
    hide Insert;
    var k := InsertPosition(q, d);
    SplitMultiset(q, k);
    MultisetOfThree(q[..k], d, q[k..]);
  }

  lemma SplitMultiset(q: seq<Datagram>, k: nat)
    requires k <= |q|
    ensures multiset(q) == multiset(q[..k]) + multiset(q[k..])
  {
    assert q == q[..k] + q[k..];
  }

  lemma MultisetOfThree(a: seq<Datagram>, d: Datagram, b: seq<Datagram>)
    ensures multiset(a + [d] + b) == multiset(a) + multiset(b) + multiset{d}
  {
  }

  /** In a sorted queue the due prefix is all that is due. */
  lemma {:induction false} DueIsExact(q: seq<Datagram>, now: real)
    requires Sorted(q)
    ensures forall i :: 0 <= i < |q| ==> (i < Due(q, now) <==> q[i].time <= now)
  {
    if q != [] && q[0].time <= now {
      DueIsExact(q[1..], now);
      forall i | 0 <= i < |q| ensures i < Due(q, now) <==> q[i].time <= now {
        if i > 0 {
          assert q[i] == q[1..][i - 1];
        }
      }
    }
  }

  lemma {:induction false} SentAtElements(q: seq<Datagram>, now: real)
    ensures |SentAt(q, now)| == |q|
    ensures forall i :: 0 <= i < |q| ==> SentAt(q, now)[i] == Sending(now, q[i])
  {
    if q != [] {
      SentAtElements(q[1..], now);
    }
  }

  lemma InsertNext(q: seq<Datagram>, i: nat, d: Datagram)
    requires i < |q| && q[i].time < d.time
    ensures q[..i] + Insert(q[i..], d) == q[..i + 1] + Insert(q[i + 1..], d)
  {
    hide Insert;
    InsertRest(q, i, d);
    assert q[..i + 1] == q[..i] + [q[i]];
    assert q[..i] + ([q[i]] + Insert(q[i + 1..], d)) == (q[..i] + [q[i]]) + Insert(q[i + 1..], d);
  }

  lemma InsertRest(q: seq<Datagram>, i: nat, d: Datagram)
    requires i < |q| && q[i].time < d.time
    ensures Insert(q[i..], d) == [q[i]] + Insert(q[i + 1..], d)
  {
    assert q[i..][1..] == q[i + 1..];
  }

  lemma InsertHere(q: seq<Datagram>, i: nat, d: Datagram)
    requires i <= |q| && (i < |q| ==> q[i].time >= d.time)
    ensures Insert(q[i..], d) == [d] + q[i..]
  {
  }

  /** One turn of the draining loop at position `i`. */
  lemma DueNext(q: seq<Datagram>, i: nat, now: real)
    requires i <= |q|
    ensures q[0..] == q && q[..0] == [] && SentAt([], now) == []
    ensures i < |q| && q[i].time <= now ==>
      && Due(q[i..], now) == 1 + Due(q[i + 1..], now)
      && SentAt(q[..i + 1], now) == SentAt(q[..i], now) + [Sending(now, q[i])]
    ensures (i < |q| ==> q[i].time > now) ==> Due(q[i..], now) == 0
  {
    if i < |q| {
      assert q[i..][1..] == q[i + 1..];
      assert q[..i + 1] == q[..i] + [q[i]];
      SentAtSnoc(q[..i], q[i], now);
    }
  }

  lemma {:induction false} SentAtSnoc(q: seq<Datagram>, d: Datagram, now: real)
    ensures SentAt(q + [d], now) == SentAt(q, now) + [Sending(now, d)]
  {
    if q == [] {
      assert [d][1..] == [] && q + [d] == [d];
    } else {
      SentAtSnoc(q[1..], d, now);
      assert (q + [d])[1..] == q[1..] + [d];
    }
  }

  // ---- runs

  datatype Event =
    | Send(now: real, draw: real, dropped: bool, dest: int, bytes: seq<Byte>)
    | Alarm(now: real)

  function Apply(l: Line, e: Event): Line {
    match e
    case Send(now, draw, dropped, dest, bytes) => SendLater(l, now, draw, dropped, dest, bytes)
    case Alarm(now) => Drain(l, now)
  }

  function After(events: seq<Event>): Line {
    if events == [] then Line([], []) else Apply(After(events[..|events| - 1]), events[|events| - 1])
  }

  /** The packets that the run put into the line. */
  function Accepted(events: seq<Event>): multiset<Datagram> {
    if events == [] then multiset{}
    else
      Accepted(events[..|events| - 1]) + Added(events[|events| - 1])
  }

  function Added(e: Event): multiset<Datagram> {
    if e.Send? && !e.dropped then multiset{Datagram(e.now + Delay(e.draw), e.dest, e.bytes)} else multiset{}
  }

  function Packets(sent: seq<Sending>): seq<Datagram> {
    seq(|sent|, i requires 0 <= i < |sent| => sent[i].packet)
  }

  /** Every packet accepted is either sent or waiting, as often as it was accepted; the queue stays sorted. */
  lemma {:induction false} NothingLostOrRepeated(events: seq<Event>)
    ensures Sorted(After(events).queue)
    ensures multiset(Packets(After(events).sent)) + multiset(After(events).queue) == Accepted(events)
  {
    hide Insert, Sorted, Drain, SendLater, Packets, Delay;
    if events == [] {
      EmptyLine();
    } else {
      var l, e := After(events[..|events| - 1]), events[|events| - 1];
      NothingLostOrRepeated(events[..|events| - 1]);
      match e
      case Send(now, draw, dropped, dest, bytes) =>
        SendAdds(l, now, draw, dropped, dest, bytes);
      case Alarm(now) =>
        DrainMoves(l, now);
    }
  }

  lemma EmptyLine()
    ensures Packets([]) == [] && Sorted([])
  {
  }

  lemma SendAdds(l: Line, now: real, draw: real, dropped: bool, dest: int, bytes: seq<Byte>)
    requires Sorted(l.queue)
    ensures
      var r := SendLater(l, now, draw, dropped, dest, bytes);
      && Sorted(r.queue) && r.sent == l.sent
      && multiset(r.queue)
         == multiset(l.queue) + Added(Send(now, draw, dropped, dest, bytes))
  {
    hide Insert, Sorted, Delay;
    InsertKeepsOrder(l.queue, Datagram(now + Delay(draw), dest, bytes));
  }

  lemma DrainMoves(l: Line, now: real)
    requires Sorted(l.queue)
    ensures var r := Drain(l, now);
      Sorted(r.queue)
      && multiset(Packets(r.sent)) + multiset(r.queue) == multiset(Packets(l.sent)) + multiset(l.queue)
  {
    hide Due, SentAt;
    var n := Due(l.queue, now);
    SentAtElements(l.queue[..n], now);
    assert Packets(Drain(l, now).sent) == Packets(l.sent) + l.queue[..n];
    assert l.queue == l.queue[..n] + l.queue[n..];
  }

  /** The clock never goes back, and the draws are between 0 and 1. */
  predicate Plausible(events: seq<Event>) {
    && (forall i, j :: 0 <= i < j < |events| ==> events[i].now <= events[j].now)
    && (forall i :: 0 <= i < |events| && events[i].Send? ==> 0.0 <= events[i].draw <= 1.0)
  }

  predicate NeverEarly(sent: seq<Sending>) {
    forall i :: 0 <= i < |sent| ==> sent[i].packet.time <= sent[i].at
  }

  predicate InTimeOrder(sent: seq<Sending>) {
    forall i, j :: 0 <= i < j < |sent| ==> sent[i].packet.time <= sent[j].packet.time
  }

  /** What has been sent precedes whatever is waiting or is still to come. */
  predicate SentFirst(l: Line, now: real) {
    forall i :: 0 <= i < |l.sent| ==>
      l.sent[i].packet.time <= now && forall d :: d in l.queue ==> l.sent[i].packet.time <= d.time
  }

  /** Over a whole run packets leave in the order of their delivery times and never before them. */
  lemma {:induction false} SentInTimeOrder(events: seq<Event>)
    requires Plausible(events)
    ensures var l := After(events); NeverEarly(l.sent) && InTimeOrder(l.sent)
    ensures events != [] ==> SentFirst(After(events), events[|events| - 1].now)
  {
    hide Insert, Sorted, Drain, SendLater, NeverEarly, InTimeOrder, SentFirst;
    if events == [] {
      NothingSent(0.0);
    } else {
      var before := events[..|events| - 1];
      var l, e := After(before), events[|events| - 1];
      SentInTimeOrder(before);
      NothingLostOrRepeated(before);
      if before == [] {
        NothingSent(e.now);
      } else {
        TimePasses(l, before[|before| - 1].now, e.now);
      }
      match e
      case Send(now, draw, dropped, dest, bytes) =>
        SendInOrder(l, now, draw, dropped, dest, bytes);
      case Alarm(now) =>
        DrainInOrder(l, now);
    }
  }

  lemma NothingSent(now: real)
    ensures NeverEarly([]) && InTimeOrder([]) && SentFirst(Line([], []), now)
  {
  }

  lemma TimePasses(l: Line, before: real, now: real)
    requires SentFirst(l, before) && before <= now
    ensures SentFirst(l, now)
  {
  }

  lemma SendInOrder(l: Line, now: real, draw: real, dropped: bool, dest: int, bytes: seq<Byte>)
    requires Sorted(l.queue) && SentFirst(l, now) && 0.0 <= draw
    ensures SentFirst(SendLater(l, now, draw, dropped, dest, bytes), now)
    ensures SendLater(l, now, draw, dropped, dest, bytes).sent == l.sent
  {
    hide Insert, Sorted;
    var d := Datagram(now + Delay(draw), dest, bytes);
    DelayIsPositive(draw);
    InsertKeepsOrder(l.queue, d);
    forall x | x in Insert(l.queue, d) ensures x in l.queue || x == d {
      assert x in multiset(Insert(l.queue, d));
    }
  }

  lemma DelayIsPositive(draw: real)
    requires 0.0 <= draw
    ensures Delay(draw) > 0.0
  {
  }

  lemma DrainInOrder(l: Line, now: real)
    requires Sorted(l.queue) && NeverEarly(l.sent) && InTimeOrder(l.sent) && SentFirst(l, now)
    ensures var r := Drain(l, now); NeverEarly(r.sent) && InTimeOrder(r.sent) && SentFirst(r, now)
    ensures forall d :: d in Drain(l, now).queue ==> d.time > now
  {
    hide Due, SentAt;
    var n := Due(l.queue, now);
    DueIsExact(l.queue, now);
    SentAtElements(l.queue[..n], now);
  }

  // ---- the linked list

  class Node {
    var next: Node?
    const packet: Datagram

    constructor (packet: Datagram)
      ensures this.packet == packet && next == null
    {
      this.packet := packet;
      next := null;
    }
  }

  class DelayList {
    var head: Node?
    var sent: seq<Sending>
    ghost var nodes: seq<Node>

    /** The list from `head` runs through `nodes`, once each. */
    ghost predicate Valid()
      reads this, nodes
    {
      && (forall i, j :: 0 <= i < j < |nodes| ==> nodes[i] != nodes[j])
      && head == Successor(nodes, -1)
      && (forall i :: 0 <= i < |nodes| ==> nodes[i].next == Successor(nodes, i))
    }

    static ghost function Successor(nodes: seq<Node>, i: int): Node?
      requires -1 <= i < |nodes|
    {
      if i + 1 < |nodes| then nodes[i + 1] else null
    }

    ghost function View(): Line
      reads this
    {
      Line(Contents(nodes), sent)
    }

    static ghost function Contents(nodes: seq<Node>): (q: seq<Datagram>)
      ensures |q| == |nodes| && forall i :: 0 <= i < |q| ==> q[i] == nodes[i].packet
    {
      seq(|nodes|, i requires 0 <= i < |nodes| => nodes[i].packet)
    }

    /** The successors and the contents once `n` has been linked in at position `i`. */
    static lemma LinkedIn(nodes: seq<Node>, i: nat, n: Node)
      requires i <= |nodes|
      ensures
        var r := nodes[..i] + [n] + nodes[i..];
        && (forall j :: -1 <= j < i - 1 ==> Successor(r, j) == Successor(nodes, j))
        && Successor(r, i - 1) == n && Successor(r, i) == Successor(nodes, i - 1)
        && (forall j :: i < j < |r| ==> Successor(r, j) == Successor(nodes, j - 1))
        && Contents(r) == Contents(nodes)[..i] + ([n.packet] + Contents(nodes)[i..])
    {
    }

    static lemma SuccessorAt(nodes: seq<Node>, i: int)
      requires -1 <= i < |nodes|
      ensures Successor(nodes, i) == if i + 1 < |nodes| then nodes[i + 1] else null
    {
    }

    static lemma InsertedAt(nodes: seq<Node>, i: nat, n: Node)
      requires i <= |nodes| && n !in nodes && forall j, k :: 0 <= j < k < |nodes| ==> nodes[j] != nodes[k]
      ensures
        var r := nodes[..i] + [n] + nodes[i..];
        && r[i] == n && (forall j :: 0 <= j < i ==> r[j] == nodes[j]) && (forall j :: i < j < |r| ==> r[j] == nodes[j - 1])
        && (forall j, k :: 0 <= j < k < |r| ==> r[j] != r[k])
    {
    }

    /** The successors and the contents without the first node. */
    static lemma UnlinkedFirst(nodes: seq<Node>)
      requires nodes != []
      ensures forall i :: -1 <= i < |nodes| - 1 ==> Successor(nodes[1..], i) == Successor(nodes, i + 1)
      ensures Successor(nodes, 0) == Successor(nodes[1..], -1)
    {
    }

    constructor ()
      ensures Valid() && View() == Line([], [])
    {
      head, sent, nodes := null, [], [];
    }

    /** Walks to the link `*p`: the head while `prev` is null, and the successor link of `prev` after that. */
    method FindLink(time: real) returns (prev: Node?, cur: Node?, ghost i: nat)
      requires Valid()
      ensures i <= |nodes| && cur == Successor(nodes, i - 1)
      ensures prev == if i == 0 then null else nodes[i - 1]
      ensures forall d: Datagram :: d.time == time ==>
        Insert(Contents(nodes), d) == Contents(nodes)[..i] + ([d] + Contents(nodes)[i..])
    {
      hide Contents, Insert, Successor;
      i := 0;
      ghost var q := Contents(nodes);
      prev := null;
      cur := head;
      assert q[..0] == [] && q[0..] == q;
      while cur != null && cur.packet.time < time
        invariant i <= |nodes| && cur == Successor(nodes, i - 1)
        invariant prev == if i == 0 then null else nodes[i - 1]
        invariant forall d: Datagram :: d.time == time ==> Insert(q, d) == q[..i] + Insert(q[i..], d)
        decreases |nodes| - i
      {
        SuccessorAt(nodes, i - 1);
        prev := cur;
        cur := cur.next;
        forall d: Datagram | d.time == time ensures Insert(q, d) == q[..i + 1] + Insert(q[i + 1..], d) {
          InsertNext(q, i, d);
        }
        i := i + 1;
      }
      SuccessorAt(nodes, i - 1);
      forall d: Datagram | d.time == time ensures Insert(q, d) == q[..i] + ([d] + q[i..]) {
        InsertHere(q, i, d);
      }
    }

    method InsertMessage(newmsg: Node)
      requires Valid() && newmsg !in nodes
      modifies this, nodes, newmsg
      ensures Valid() && sent == old(sent)
      ensures View().queue == Insert(old(View().queue), newmsg.packet)
      ensures forall n :: n in nodes ==> n in old(nodes) || n == newmsg
    {
      hide Contents, Insert, Successor;
      var prev, cur, i := FindLink(newmsg.packet.time);
      LinkedIn(nodes, i, newmsg);
      newmsg.next := cur;
      if prev == null {
        head := newmsg;
      } else {
        prev.next := newmsg;
      }
      ghost var was := nodes;
      nodes := nodes[..i] + [newmsg] + nodes[i..];
      InsertedAt(was, i, newmsg);
      forall j | 0 <= j < |nodes| ensures nodes[j].next == Successor(nodes, j) {
        assert j == i || nodes[j] == was[if j < i then j else j - 1];
      }
    }

    /** The draining loop of the alarm handler. */
    method CatchAlarm(now: real)
      requires Valid()
      modifies this
      ensures Valid() && View() == Drain(old(View()), now)
      ensures nodes == old(nodes[Due(View().queue, now)..])
    {
      hide Contents, SentAt, Due, Successor;
      ghost var q := Contents(nodes);
      ghost var i := 0;
      ghost var all := nodes;
      DueNext(q, 0, now);
      while head != null && head.packet.time <= now
        invariant Valid() && 0 <= i <= |q| && nodes == all[i..]
        invariant sent == old(sent) + SentAt(q[..i], now)
        invariant Due(q, now) == i + Due(q[i..], now)
        decreases |nodes|
      {
        SuccessorAt(nodes, -1);
        DueNext(q, i, now);
        UnlinkedFirst(nodes);
        sent := sent + [Sending(now, head.packet)];
        head := head.next;
        nodes := nodes[1..];
        i := i + 1;
      }
      SuccessorAt(nodes, -1);
      DueNext(q, i, now);
    }

    method Usend(now: real, draw: real, dropped: bool, dest: int, bytes: seq<Byte>)
      requires Valid()
      modifies this, nodes
      ensures Valid() && View() == SendLater(old(View()), now, draw, dropped, dest, bytes)
      ensures forall n :: n in nodes ==> n in old(nodes) || fresh(n)
    {
      hide Insert, Contents, Delay, Valid;
      var delay := Delay(draw);
      if dropped {
        return;
      }
      var newmsg := new Node(Datagram(now + delay, dest, bytes));
      InsertMessage(newmsg);
    }
  }
}

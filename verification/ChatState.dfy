/** The objects of MP1/state and the handlers of MP1/mcast.cc and MP1/nmcast.cc on them, proved against `Handlers`. */
module ChatState {
  import opened VectorClocks
  import opened Ordering
  import opened Handlers
  import opened Helpers
  import Decimal

  class Node {
    const id: Id
    var sequenceNumber: int
    var failedNodes: set<Id>
    const timestamp: Timestamp

    constructor (id: Id, memberIds: seq<Id>)
      ensures this.id == id && sequenceNumber == 0 && failedNodes == {}
      ensures fresh(timestamp) && timestamp.ownId == id && timestamp.timestamp == Zero(set k | k in memberIds)
    {
      this.id := id;
      sequenceNumber := 0;
      failedNodes := {};
      timestamp := new Timestamp(id, memberIds);
    }

    method UpdateFailedNodes(otherFailedNodes: set<Id>)
      modifies this`failedNodes
      ensures failedNodes == old(failedNodes) + otherFailedNodes
    {
      failedNodes := failedNodes + otherFailedNodes;
    }

    method SequenceNumberIncrement()
      modifies this`sequenceNumber
      ensures sequenceNumber == old(sequenceNumber) + 1
    {
      sequenceNumber := sequenceNumber + 1;
    }
  }

  class ExternalNode {
    const id: Id
    var lastSequenceNumber: int
    var deliveryAckList: map<Id, int>

    constructor (id: Id)
      ensures this.id == id && lastSequenceNumber == 0 && deliveryAckList == map[]
    {
      this.id := id;
      lastSequenceNumber := 0;
      deliveryAckList := map[];
    }

    method LastSequenceNumberIncrement()
      modifies this`lastSequenceNumber
      ensures lastSequenceNumber == old(lastSequenceNumber) + 1
    {
      lastSequenceNumber := lastSequenceNumber + 1;
    }

    /** The element-wise maximum with `list`, entry by entry. */
    method UpdateDeliveryAckList(list: map<Id, int>)
      modifies this`deliveryAckList
      ensures deliveryAckList == MergeAcks(old(deliveryAckList), list)
    {
      ghost var was, merged := deliveryAckList, MergeAcks(deliveryAckList, list);
      var keys := Listing(list.Keys);
      for i := 0 to |keys|
        invariant deliveryAckList == Overwritten(was, merged, keys[..i])
      {
        var k := keys[i];
        OverwriteNext(was, merged, keys, i);
        OverwrittenAt(was, merged, keys[..i], k);
        var mine := if k in deliveryAckList then deliveryAckList[k] else 0;
        deliveryAckList := deliveryAckList[k := if mine < list[k] then list[k] else mine];
      }
      MergedFully(was, list, keys);
    }
  }

  lemma MergedFully(was: map<Id, int>, list: map<Id, int>, keys: seq<Id>)
    requires Lists(keys, list.Keys)
    ensures Overwritten(was, MergeAcks(was, list), keys[..|keys|]) == MergeAcks(was, list)
  {
    assert keys[..|keys|] == keys;
    var merged := MergeAcks(was, list);
    forall k
      ensures k in Overwritten(was, merged, keys) <==> k in merged
      ensures k in merged ==> Overwritten(was, merged, keys)[k] == merged[k]
    {
      OverwrittenAt(was, merged, keys, k);
    }
  }

  class GlobalState {
    var messageStore: set<Message>
    const node: Node
    const externalNodes: map<Id, ExternalNode>
    /** The upcalls `deliver(...)` so far. */
    var delivered: seq<Delivery>

    ghost predicate Valid()
      reads this, node, node.timestamp, externalNodes.Values
    {
      && node.timestamp.ownId == node.id && node.id !in externalNodes
      && (forall m :: m in messageStore ==> m.sender == node.id || m.sender in externalNodes)
      && forall k :: k in externalNodes ==> externalNodes[k].id == k
    }

    /** The abstract state of the process. */
    ghost function View(): Proc
      reads this, node, node.timestamp, externalNodes.Values
    {
      Proc(node.id, node.sequenceNumber, node.timestamp.timestamp, node.failedNodes,
           map k | k in externalNodes :: externalNodes[k].lastSequenceNumber,
           map k | k in externalNodes :: externalNodes[k].deliveryAckList,
           messageStore, delivered)
    }

    constructor (ownId: Id, memberIds: seq<Id>)
      requires ownId in memberIds
      ensures Valid() && View() == InitialProc(ownId, set k | k in memberIds)
      ensures fresh(node) && fresh(node.timestamp) && forall k :: k in externalNodes ==> fresh(externalNodes[k])
    {
      messageStore := {};
      delivered := [];
      var nodes: map<Id, ExternalNode> := map[];
      for i := 0 to |memberIds|
        invariant nodes.Keys == (set k | k in memberIds[..i]) - {ownId}
        invariant forall k :: k in nodes ==>
          fresh(nodes[k]) && nodes[k].id == k && nodes[k].lastSequenceNumber == 0 && nodes[k].deliveryAckList == map[]
      {
        assert memberIds[..i + 1] == memberIds[..i] + [memberIds[i]];
        if memberIds[i] != ownId {
          var e := new ExternalNode(memberIds[i]);
          nodes := nodes[memberIds[i] := e];
        }
      }
      assert memberIds[..|memberIds|] == memberIds;
      externalNodes := nodes;
      node := new Node(ownId, memberIds);
      new;
      assert View().last == InitialProc(ownId, set k | k in memberIds).last;
      assert View().acked == InitialProc(ownId, set k | k in memberIds).acked;
    }

    method GetMessage(fromId: Id, sequenceNumber: int) returns (found: Lookup)
      ensures IsLookup(messageStore, fromId, sequenceNumber, found)
    {
      var all := Listing(messageStore);
      for i := 0 to |all|
        invariant forall j :: 0 <= j < i ==> !Matches(all[j], fromId, sequenceNumber)
      {
        if all[i].sender == fromId && all[i].number == sequenceNumber {
          return Stored(all[i]);
        }
      }
      return NotStored;
    }

    method StoreMessage(m: Message)
      requires Valid() && (m.sender == node.id || m.sender in externalNodes)
      modifies this`messageStore
      ensures Valid() && View() == Keep(old(View()), m)
    {
      messageStore := messageStore + {m};
    }

    method PopulateAcknowledgements() returns (acknowledgements: map<Id, int>)
      requires Valid()
      ensures acknowledgements == Acknowledgements(View())
    {
      hide View, Valid, Elements;
      ghost var p := View();
      OwnInView();
      LastKeys();
      NoElements();
      acknowledgements := map[];
      var keys := Listing(externalNodes.Keys);
      for i := 0 to |keys|
        invariant acknowledgements.Keys == Elements(keys[..i]) <= p.last.Keys
        invariant forall k :: k in acknowledgements ==> acknowledgements[k] == p.last[k]
      {
        ElementsNext(keys, i);
        LastDelivered(keys[i]);
        acknowledgements := acknowledgements[keys[i] := externalNodes[keys[i]].lastSequenceNumber];
      }
      ElementsOfListing(keys, externalNodes.Keys);
      assert acknowledgements == p.last;
      acknowledgements := acknowledgements[node.id := node.sequenceNumber];
    }

    /** A message with the current clock, acknowledgements and failed nodes. */
    method MakeMessage(sequenceNumber: int, kind: Kind, body: string) returns (m: Message)
      requires Valid()
      ensures m == NewMessage(View(), sequenceNumber, kind, body)
    {
      var acknowledgements := PopulateAcknowledgements();
      m := Message(node.id, sequenceNumber, node.timestamp.timestamp, kind, body, acknowledgements, node.failedNodes);
    }

    method Unicast(to: Id, m: Message) returns (out: set<Packet>)
      ensures out == SendTo(View(), {to}, m)
    {
      if to !in node.failedNodes {
        out := {Packet(node.id, to, m)};
      } else {
        out := {};
      }
    }

    /** The loop that unicasts one message to each of `targets`. */
    method UnicastAll(targets: set<Id>, m: Message) returns (out: set<Packet>)
      ensures out == SendTo(View(), targets, m)
    {
      out := {};
      var keys := Listing(targets);
      for i := 0 to |keys|
        invariant out == SendTo(View(), (set k | k in keys[..i]), m)
      {
        assert keys[..i + 1] == keys[..i] + [keys[i]];
        var sent := Unicast(keys[i], m);
        out := out + sent;
      }
      assert keys[..|keys|] == keys;
      assert (set k | k in keys) == targets;
    }

    method MulticastDeliver(m: Message)
      requires Valid() && (m.sender == node.id || m.sender in externalNodes)
      modifies this`delivered, externalNodes.Values
      ensures Valid() && messageStore == old(messageStore)
      ensures View() ==
        if m.sender == node.id then DeliverOwn(old(View()), m)
        else DeliverOwn(old(View()), m).(last := old(View()).last[m.sender := old(View()).last[m.sender] + 1])
    {
      if m.sender != node.id {
        externalNodes[m.sender].LastSequenceNumberIncrement();
      }
      delivered := delivered + [Delivery(m.sender, m.body)];
    }

    /** Those known to have delivered message `number` of `from`. */
    method DeliveredNodes(from: Id, number: int) returns (deliveredNodes: set<Id>)
      ensures deliveredNodes == Holders(View(), from, number)
    {
      deliveredNodes := {};
      var keys := Listing(externalNodes.Keys);
      for i := 0 to |keys|
        invariant deliveredNodes ==
          set q | q in keys[..i] && q in externalNodes && Get(externalNodes[q].deliveryAckList, from) >= number
      {
        assert keys[..i + 1] == keys[..i] + [keys[i]];
        if Get(externalNodes[keys[i]].deliveryAckList, from) >= number {
          deliveredNodes := deliveredNodes + {keys[i]};
        }
      }
      assert keys[..|keys|] == keys;
    }

    /** Asks all who have it for message `number` of `from`, `targets` being those known to have delivered it. */
    method Ask(from: Id, number: int, targets: set<Id>) returns (out: set<Packet>)
      requires Valid()
      ensures out == RequestPackets(View(), {Want(from, number, targets)})
    {
      var rm := MakeMessage(number, RETRANSREQUEST, Decimal.Show(from));
      out := UnicastAll(targets, rm);
      assert rm == Request(View(), Want(from, number, targets));
    }

    /** mcast.cc: asks for the gap between the last delivered message of the sender of `m` and `m`. */
    method RetransmissionRequests(m: Message, lastSequenceNumber: int) returns (out: set<Packet>)
      requires Valid() && lastSequenceNumber == Get(View().last, m.sender)
      requires forall w :: w in GapWants(View(), m) ==> w.targets != {}
      ensures out == RequestPackets(View(), GapWants(View(), m))
    {
      hide View, Valid, RequestPackets, GapBelow, GapWants, Holders;
      ghost var p := View();
      NoGapWants(p, m);
      out := {};
      var i := lastSequenceNumber + 1;
      while i < m.number
        invariant lastSequenceNumber < i && (i <= m.number || i == lastSequenceNumber + 1)
        invariant Valid() && View() == p && out == RequestPackets(p, GapBelow(p, m, i))
      {
        var deliveredNodes := DeliveredNodes(m.sender, m.number);
        GapBelowNext(p, m, i);
        assert deliveredNodes != {};
        var asked := Ask(m.sender, i, deliveredNodes);
        RequestPacketsUnion(p, GapBelow(p, m, i), {Want(m.sender, i, deliveredNodes)});
        out := out + asked;
        i := i + 1;
      }
      AllGapWants(p, m, i);
    }

    /** Every other member in the list of stored messages gets the largest number to start from. */
    method LargestForAll(all: seq<Message>) returns (nums: map<Id, int>)
      ensures nums.Keys == OtherSenders(node.id, all)
      ensures forall k :: k in nums ==> nums[k] == INT_MAX
    {
      nums := map[];
      for i := 0 to |all|
        invariant nums.Keys == set j | 0 <= j < i && all[j].sender != node.id :: all[j].sender
        invariant forall k :: k in nums ==> nums[k] == INT_MAX
      {
        if all[i].sender != node.id {
          nums := nums[all[i].sender := INT_MAX];
        }
      }
    }

    /** The least stored number of every other member that has a stored message. */
    method MinSequenceNums() returns (minSequenceNums: map<Id, int>)
      requires forall m :: m in messageStore ==> m.number <= INT_MAX
      ensures IsLeastStored(View(), minSequenceNums)
    {
      hide LeastAmong, IsLeastStored;
      var all := Listing(messageStore);
      minSequenceNums := LargestForAll(all);
      LeastStart(node.id, all, minSequenceNums);
      for i := 0 to |all|
        invariant minSequenceNums.Keys == OtherSenders(node.id, all) && LeastAmong(node.id, all, i, minSequenceNums)
      {
        LeastNext(node.id, all, i, minSequenceNums);
        if all[i].sender != node.id {
          var k := all[i].sender;
          var least := if all[i].number < minSequenceNums[k] then all[i].number else minSequenceNums[k];
          minSequenceNums := minSequenceNums[k := least];
        }
      }
      LeastOfList(View(), all, minSequenceNums);
    }

    /** nmcast.cc: asks for everything between what was delivered and the least that is stored, sender by sender. */
    method RetransmissionRequestsFromStore() returns (out: set<Packet>)
      requires Valid()
      requires forall m :: m in messageStore ==> m.number <= INT_MAX
      requires forall w :: w in StoreWants(View()) ==> w.targets != {}
      ensures out == RequestPackets(View(), StoreWants(View()))
    {
      hide RequestPackets, StoreWants, StoreWantsOf, IsLeastStored, View;
      ghost var p := View();
      out := {};
      var minSequenceNums := MinSequenceNums();
      var keys := Listing(minSequenceNums.Keys);
      NoStoreWants(p);
      for j := 0 to |keys|
        invariant View() == p && out == RequestPackets(p, StoreWantsOf(p, Elements(keys[..j])))
      {
        ElementsNext(keys, j);
        var asked := AskBelow(keys[j], minSequenceNums[keys[j]], minSequenceNums);
        StoreWantsNext(p, Elements(keys[..j]), keys[j]);
        RequestPacketsUnion(p, StoreWantsOf(p, Elements(keys[..j])), StoreWantsOf(p, {keys[j]}));
        out := out + asked;
      }
      assert keys[..|keys|] == keys;
      AllStoreWants(p, minSequenceNums, Elements(keys));
    }

    lemma StoreInView()
      ensures View().store == messageStore && View().id == node.id
    {
    }

    lemma AckedKeys()
      ensures View().acked.Keys == externalNodes.Keys
    {
    }

    lemma AckedInView(q: Id)
      requires q in externalNodes
      ensures q in View().acked && View().acked[q] == externalNodes[q].deliveryAckList
    {
    }

    lemma OwnInView()
      ensures View().id == node.id && View().number == node.sequenceNumber
    {
    }

    lemma LastKeys()
      ensures View().last.Keys == externalNodes.Keys
    {
    }

    lemma StoredSender(m: Message)
      requires Valid() && m in messageStore
      ensures m.sender == node.id || m.sender in externalNodes
    {
    }

    lemma LastDelivered(from: Id)
      ensures from in View().last <==> from in externalNodes
      ensures Get(View().last, from) == if from in externalNodes then externalNodes[from].lastSequenceNumber else 0
    {
    }

    /** The inner loop: asks for the numbers of `from` below `least`. */
    method AskBelow(from: Id, least: int, ghost minSequenceNums: map<Id, int>) returns (out: set<Packet>)
      requires Valid() && IsLeastStored(View(), minSequenceNums)
      requires from in minSequenceNums && minSequenceNums[from] == least
      requires forall w :: w in StoreWants(View()) ==> w.targets != {}
      ensures out == RequestPackets(View(), StoreWantsOf(View(), {from}))
    {
      hide RequestPackets, StoreWants, StoreWantsOf, IsLeastStored, RangeWants, View, Valid, Holders;
      ghost var p := View();
      out := {};
      var lastSequenceNumber := if from in externalNodes then externalNodes[from].lastSequenceNumber else 0;
      var i := lastSequenceNumber + 1;
      LastDelivered(from);
      NoRangeWants(p, from, i, least);
      while i < least
        invariant lastSequenceNumber < i && (i <= least || i == lastSequenceNumber + 1)
        invariant Valid() && View() == p && out == RequestPackets(p, RangeWants(p, from, i, least))
      {
        var deliveredNodes := DeliveredNodes(from, i);
        InStoreWants(p, minSequenceNums, from, i);
        assert deliveredNodes != {};
        var asked := Ask(from, i, deliveredNodes);
        RangeWantsNext(p, from, i, least);
        RequestPacketsUnion(p, RangeWants(p, from, i, least), {Want(from, i, deliveredNodes)});
        out := out + asked;
        i := i + 1;
      }
      RangeIsAll(p, minSequenceNums, from, i);
    }

    /** Delivered here, and reported as delivered by everybody else. */
    method IsDeletable(m: Message) returns (deletable: bool)
      requires Valid() && m in messageStore
      ensures deletable == Deletable(View(), m)
    {
      hide View, Valid, Deletable;
      ghost var p := View();
      StoredSender(m);
      StoreInView();
      LastDelivered(m.sender);
      deletable := false;
      if m.sender == node.id {
        deletable := true;
      } else if m.number <= externalNodes[m.sender].lastSequenceNumber {
        deletable := true;
      }
      var keys := Listing(externalNodes.Keys);
      for j := 0 to |keys|
        invariant deletable <==> m.sender == p.id || m.number <= Get(p.last, m.sender)
        invariant forall i :: 0 <= i < j ==> keys[i] in p.acked && m.number <= Get(p.acked[keys[i]], m.sender)
      {
        AckedInView(keys[j]);
        if m.number > Get(externalNodes[keys[j]].deliveryAckList, m.sender) {
          NotDeletable(p, m, keys[j]);
          return false;
        }
      }
      AckedKeys();
      DeletableMeans(p, m, keys);
    }

    method Erase(m: Message)
      requires Valid()
      modifies this`messageStore
      ensures Valid() && View() == old(View()).(store := old(View()).store - {m})
    {
      messageStore := messageStore - {m};
    }

    method CleanMessageStore()
      requires Valid()
      modifies this`messageStore
      ensures Valid() && View() == Clean(old(View()))
    {
      hide View, Valid, Deletable, StillKept, Clean;
      ghost var p := View();
      var all := Listing(messageStore);
      StoreInView();
      NothingCleaned(p);
      for i := 0 to |all|
        invariant Valid() && View() == p.(store := StillKept(p, all[..i]))
      {
        KeptNext(p, all, i);
        DeletableIgnoresStore(p, View().store, all[i]);
        StoreInView();
        var deletable := IsDeletable(all[i]);
        if deletable {
          Erase(all[i]);
        }
      }
      AllCleaned(p, all);
    }

    /** Tries every undelivered message of the others once, in the order in which the store lists them. */
    method ProcessUndelivered() returns (ghost order: seq<Message>)
      requires Valid()
      modifies this`delivered, externalNodes.Values
      ensures Valid() && messageStore == old(messageStore)
      ensures Lists(order, Undelivered(old(View())))
      ensures View() == DeliverInOrder(old(View()), order)
    {
      hide View, Valid, TryDeliver;
      var undelivered := UndeliveredList();
      order := undelivered;
      ghost var p := View();
      StoreInView();
      for i := 0 to |undelivered|
        invariant Valid() && messageStore == old(messageStore)
        invariant View() == DeliverInOrder(p, undelivered[..i])
      {
        var m := undelivered[i];
        assert m in Undelivered(p);
        StoredSender(m);
        LastDelivered(m.sender);
        DeliverNext(p, undelivered, i);
        if m.number == externalNodes[m.sender].lastSequenceNumber + 1 {
          MulticastDeliver(m);
        }
      }
      assert undelivered[..|undelivered|] == undelivered;
    }

    method UndeliveredList() returns (undelivered: seq<Message>)
      requires Valid()
      ensures Lists(undelivered, Undelivered(View()))
    {
      undelivered := [];
      var all := Listing(messageStore);
      for i := 0 to |all|
        invariant Lists(undelivered, set m | m in all[..i] && m in Undelivered(View()))
      {
        assert all[..i + 1] == all[..i] + [all[i]];
        var m := all[i];
        if m.sender != node.id {
          if m.number > externalNodes[m.sender].lastSequenceNumber {
            assert m in Undelivered(View());
            assert m !in undelivered;
            undelivered := undelivered + [m];
          }
        }
      }
      assert all[..|all|] == all;
      assert (set m | m in all && m in Undelivered(View())) == Undelivered(View());
    }

    method StepClock()
      requires Valid()
      modifies node.timestamp
      ensures Valid() && View() == old(View()).(clock := Step(old(View()).clock, node.id))
    {
      node.timestamp.StepOwn();
    }

    method NextNumber()
      requires Valid()
      modifies node
      ensures Valid() && View() == old(View()).(number := old(View()).number + 1)
    {
      node.SequenceNumberIncrement();
    }

    /** Steps clock and number and wraps the text in a message. */
    method Stamp(text: string) returns (m: Message)
      requires Valid()
      modifies node, node.timestamp
      ensures Valid() && m == Cast(old(View()), text).1
      ensures View() == old(View()).(clock := Step(old(View()).clock, node.id), number := old(View()).number + 1)
    {
      hide Acknowledgements;
      StepClock();
      NextNumber();
      m := MakeMessage(node.sequenceNumber, MESSAGE, text);
    }

    /** Numbers, stamps, delivers and stores a message, and sends it to everybody else. */
    method Multicast(text: string) returns (out: set<Packet>)
      requires Valid()
      modifies this, node, node.timestamp, externalNodes.Values
      ensures Valid()
      ensures View() == Cast(old(View()), text).0
      ensures out == SendTo(View(), View().last.Keys, Cast(old(View()), text).1)
    {
      hide SendTo, Acknowledgements, Step;
      var m := Stamp(text);
      MulticastDeliver(m);
      StoreMessage(m);
      out := SendToOthers(m);
    }

    /** One packet to each other member that is not believed to have failed. */
    method SendToOthers(m: Message) returns (out: set<Packet>)
      ensures out == SendTo(View(), View().last.Keys, m)
    {
      out := UnicastAll(externalNodes.Keys, m);
      assert View().last.Keys == externalNodes.Keys;
    }

    /** The handler of a failure timer. */
    method HeartbeatFailure(failedId: Id)
      requires Valid()
      modifies node
      ensures Valid() && View() == old(View()).(failed := old(View()).failed + {failedId})
    {
      node.UpdateFailedNodes({failedId});
    }

    method HeartbeatSend() returns (out: set<Packet>)
      requires Valid()
      ensures out == SendTo(View(), View().last.Keys, Beat(View()))
    {
      var m := MakeMessage(node.sequenceNumber, HEARTBEAT, "");
      out := SendToOthers(m);
    }

    method MergeClock(t: Clock)
      requires Valid()
      modifies node.timestamp
      ensures Valid() && View() == old(View()).(clock := Update(old(View()).clock, t, node.id))
    {
      node.timestamp.UpdateFrom(t);
    }

    method MergeAcknowledgements(from: Id, list: map<Id, int>)
      requires Valid() && from in externalNodes
      modifies externalNodes.Values
      ensures Valid() && View() == old(View()).(acked := old(View()).acked[from := MergeAcks(old(View()).acked[from], list)])
    {
      ghost var p := View();
      externalNodes[from].UpdateDeliveryAckList(list);
      assert View().last == p.last;
      assert View().acked == p.acked[from := MergeAcks(p.acked[from], list)];
    }

    method MergeFailed(failed: set<Id>)
      requires Valid()
      modifies node
      ensures Valid() && View() == old(View()).(failed := old(View()).failed + failed)
    {
      node.UpdateFailedNodes(failed);
    }

    /** Clock, acknowledgements and failed nodes are brought up to date from an incoming message. */
    method LearnFrom(v: Variant, m: Message)
      requires Valid() && m.sender in externalNodes
      modifies node, node.timestamp, externalNodes.Values
      ensures Valid() && View() == Learn(v, old(View()), m)
    {
      StepClock();
      MergeClock(m.clock);
      MergeAcknowledgements(m.sender, m.acks);
      if v == Mcast {
        MergeFailed(m.failed);
      }
    }

    method RetransmissionsFor(v: Variant, m: Message, lastSequenceNumber: int) returns (out: set<Packet>)
      requires Valid() && lastSequenceNumber == Get(View().last, m.sender)
      requires v == Nmcast ==> forall w :: w in messageStore ==> w.number <= INT_MAX
      requires forall w :: w in Wants(v, View(), m) ==> w.targets != {}
      ensures out == RequestPackets(View(), Wants(v, View(), m))
    {
      if v == Mcast {
        out := RetransmissionRequests(m, lastSequenceNumber);
      } else {
        out := RetransmissionRequestsFromStore();
      }
    }

    /** Answers a request with the message asked for, if it is stored. */
    method Reply(m: Message) returns (out: set<Packet>, ghost c: Choice)
      requires Valid() && m.kind == RETRANSREQUEST
      ensures
        var from := Decimal.Parse(m.body);
        if from.Number? then IsLookup(messageStore, from.value, m.number, c.found) else c.found == NotStored
      ensures out == if c.found.Stored? then SendTo(View(), {m.sender}, c.found.msg) else {}
    {
      out := {};
      c := Choice([], NotStored);
      var from := Decimal.Parse(m.body);
      if from.Number? {
        var found := GetMessage(from.value, m.number);
        c := Choice([], found);
        if found.Stored? {
          out := Unicast(m.sender, found.msg);
        }
      }
    }

    /** The MESSAGE branch once the message is known to be new. */
    method AcceptNew(v: Variant, m: Message, lastSequenceNumber: int) returns (out: set<Packet>, ghost order: seq<Message>)
      requires Valid() && m.sender in externalNodes && lastSequenceNumber == Get(View().last, m.sender)
      requires v == Nmcast ==> m.number <= INT_MAX && forall w :: w in messageStore ==> w.number <= INT_MAX
      requires forall w :: w in Wants(v, Keep(View(), m), m) ==> w.targets != {}
      modifies this`messageStore, this`delivered, externalNodes.Values
      ensures Valid()
      ensures Lists(order, Undelivered(Keep(old(View()), m)))
      ensures View() == Clean(DeliverInOrder(Keep(old(View()), m), order))
      ensures out == RequestPackets(Keep(old(View()), m), Wants(v, Keep(old(View()), m), m))
    {
      hide View, Valid, Wants, RequestPackets, Undelivered, Clean;
      StoreInView();
      StoreMessage(m);
      StoreInView();
      out := RetransmissionsFor(v, m, lastSequenceNumber);
      order := ProcessUndelivered();
      CleanMessageStore();
    }

    /**
     * The receive handler. The sender of the message is another member, and the assertion in
     * retransmissionRequests holds; that both are so in every run is proved in `Reliability` and `Guarantees`.
     */
    method Receive(v: Variant, m: Message) returns (out: set<Packet>, ghost c: Choice)
      requires Valid() && m.sender in externalNodes && AssertionsHold(v, View(), m)
      requires v == Nmcast ==> m.number <= INT_MAX && forall w :: w in messageStore ==> w.number <= INT_MAX
      modifies this, node, node.timestamp, externalNodes.Values
      ensures Valid() && ChoiceOk(v, old(View()), m, c)
      ensures (View(), out) == HandleReceive(v, old(View()), m, c)
    {
      hide View, Valid, Wants, RequestPackets, Undelivered, Clean, Learn, AlreadyReceived, IsLookup;
      LearnFrom(v, m);
      ghost var p1 := View();
      StoreInView();
      LastDelivered(m.sender);
      out, c := {}, Choice([], NotStored);
      if m.kind == RETRANSREQUEST {
        out, c := Reply(m);
      } else if m.kind == MESSAGE {
        var lastSequenceNumber := externalNodes[m.sender].lastSequenceNumber;
        var already := GetMessage(m.sender, m.number);
        AlreadyReceivedMeans(p1, m, already);
        if !(m.number <= lastSequenceNumber || already.Stored?) {
          ghost var order;
          out, order := AcceptNew(v, m, lastSequenceNumber);
          c := Choice(order, NotStored);
        }
      } else {
        out := RetransmissionsFor(v, m, externalNodes[m.sender].lastSequenceNumber);
      }
    }
  }

  lemma DeliverNext(p: Proc, order: seq<Message>, i: nat)
    requires i < |order|
    ensures
      var q, m := DeliverInOrder(p, order[..i]), order[i];
      DeliverInOrder(p, order[..i + 1]) ==
        if m.number == Get(q.last, m.sender) + 1 then DeliverOwn(q, m).(last := q.last[m.sender := m.number]) else q
  {
    assert order[..i + 1][..i] == order[..i];
  }

  lemma AlreadyReceivedMeans(p: Proc, m: Message, found: Lookup)
    requires IsLookup(p.store, m.sender, m.number, found)
    ensures AlreadyReceived(p, m) <==> m.number <= Get(p.last, m.sender) || found.Stored?
  {
  }

  /** What is left of the store once the messages `done` have been looked at. */
  ghost function StillKept(p: Proc, done: seq<Message>): set<Message> {
    set m | m in p.store && !(m in done && Deletable(p, m))
  }

  lemma NothingCleaned(p: Proc)
    ensures StillKept(p, []) == p.store
  {
  }

  lemma KeptNext(p: Proc, all: seq<Message>, i: nat)
    requires Lists(all, p.store) && i < |all|
    ensures all[i] in StillKept(p, all[..i])
    ensures StillKept(p, all[..i + 1]) == StillKept(p, all[..i]) - if Deletable(p, all[i]) then {all[i]} else {}
  {
    hide Deletable;
    assert all[..i + 1] == all[..i] + [all[i]];
    assert all[i] !in all[..i];
  }

  lemma AllCleaned(p: Proc, all: seq<Message>)
    requires Lists(all, p.store)
    ensures p.(store := StillKept(p, all[..|all|])) == Clean(p)
  {
    hide Deletable;
    assert all[..|all|] == all;
  }

  lemma NotDeletable(p: Proc, m: Message, q: Id)
    requires q in p.acked && m.number > Get(p.acked[q], m.sender)
    ensures !Deletable(p, m)
  {
  }

  lemma DeletableMeans(p: Proc, m: Message, keys: seq<Id>)
    requires Lists(keys, p.acked.Keys)
    requires forall i :: 0 <= i < |keys| ==> keys[i] in p.acked && m.number <= Get(p.acked[keys[i]], m.sender)
    ensures Deletable(p, m) <==> m.sender == p.id || m.number <= Get(p.last, m.sender)
  {
    forall q | q in p.acked ensures m.number <= Get(p.acked[q], m.sender) {
      assert q in keys;
    }
  }

  lemma DeletableIgnoresStore(p: Proc, store: set<Message>, m: Message)
    ensures Deletable(p.(store := store), m) == Deletable(p, m)
  {
  }

  ghost function GapBelow(p: Proc, m: Message, n: int): set<Want> {
    set i | Get(p.last, m.sender) < i < n && i < m.number :: Want(m.sender, i, Holders(p, m.sender, m.number))
  }

  lemma NoGapWants(p: Proc, m: Message)
    ensures RequestPackets(p, GapBelow(p, m, Get(p.last, m.sender) + 1)) == {}
  {
  }

  lemma GapBelowNext(p: Proc, m: Message, n: int)
    requires Get(p.last, m.sender) < n < m.number
    ensures Want(m.sender, n, Holders(p, m.sender, m.number)) in GapWants(p, m)
    ensures GapBelow(p, m, n + 1) == GapBelow(p, m, n) + {Want(m.sender, n, Holders(p, m.sender, m.number))}
  {
  }

  lemma AllGapWants(p: Proc, m: Message, n: int)
    requires n >= m.number
    ensures GapBelow(p, m, n) == GapWants(p, m)
  {
  }

  lemma RequestPacketsUnion(p: Proc, a: set<Want>, b: set<Want>)
    ensures RequestPackets(p, a + b) == RequestPackets(p, a) + RequestPackets(p, b)
  {
  }

  /** `least` maps every other member with a stored message to its least stored number. */
  ghost predicate IsLeastStored(p: Proc, least: map<Id, int>) {
    && (forall k :: k in least <==> k != p.id && exists m :: m in p.store && m.sender == k)
    && (forall m :: m in p.store && m.sender in least ==> least[m.sender] <= m.number)
    && (forall k :: k in least ==> exists m :: m in p.store && m.sender == k && m.number == least[k])
  }

  function OtherSenders(own: Id, all: seq<Message>): set<Id> {
    set j | 0 <= j < |all| && all[j].sender != own :: all[j].sender
  }

  /** After the first `n` messages of the loop. */
  ghost predicate LeastAmong(own: Id, all: seq<Message>, n: nat, least: map<Id, int>)
    requires n <= |all|
  {
    && (forall j {:trigger all[j]} :: 0 <= j < n && all[j].sender != own ==>
          all[j].sender in least && least[all[j].sender] <= all[j].number)
    && forall k :: k in least ==>
         least[k] == INT_MAX || exists j {:trigger all[j]} :: 0 <= j < n && all[j].sender == k && all[j].number == least[k]
  }

  lemma LeastStart(own: Id, all: seq<Message>, least: map<Id, int>)
    requires forall k :: k in least ==> least[k] == INT_MAX
    ensures LeastAmong(own, all, 0, least)
  {
  }

  lemma LeastNext(own: Id, all: seq<Message>, n: nat, least: map<Id, int>)
    requires n < |all| && least.Keys == OtherSenders(own, all) && LeastAmong(own, all, n, least)
    ensures all[n].sender == own ==> LeastAmong(own, all, n + 1, least)
    ensures all[n].sender != own ==>
      && all[n].sender in least
      && (all[n].number < least[all[n].sender] ==> LeastAmong(own, all, n + 1, least[all[n].sender := all[n].number]))
      && (all[n].number >= least[all[n].sender] ==> LeastAmong(own, all, n + 1, least))
    ensures all[n].sender in least ==>
      least[all[n].sender := least[all[n].sender]] == least && least.Keys + {all[n].sender} == least.Keys
  {
  }

  lemma LeastOfList(p: Proc, all: seq<Message>, least: map<Id, int>)
    requires Lists(all, p.store) && forall m :: m in p.store ==> m.number <= INT_MAX
    requires least.Keys == OtherSenders(p.id, all) && LeastAmong(p.id, all, |all|, least)
    ensures IsLeastStored(p, least)
  {
    forall k | k in least ensures exists m :: m in p.store && m.sender == k && m.number == least[k] {
      var j :| 0 <= j < |all| && all[j].sender != p.id && all[j].sender == k;
      assert all[j] in p.store;
      if least[k] != INT_MAX {
        var i :| 0 <= i < |all| && all[i].sender == k && all[i].number == least[k];
        assert all[i] in p.store;
      }
    }
    forall m | m in p.store && m.sender != p.id ensures m.sender in least && least[m.sender] <= m.number {
      assert m in all;
    }
  }

  ghost function StoreWantsOf(p: Proc, senders: set<Id>): set<Want> {
    set w | w in StoreWants(p) && w.from in senders
  }

  lemma NoElements()
    ensures Elements<Id>([]) == {}
  {
  }

  lemma ElementsOfListing(keys: seq<Id>, s: set<Id>)
    requires Lists(keys, s)
    ensures Elements(keys[..|keys|]) == s
  {
    assert keys[..|keys|] == keys;
  }

  lemma ElementsNext(keys: seq<Id>, j: nat)
    requires j < |keys|
    ensures Elements(keys[..j + 1]) == Elements(keys[..j]) + {keys[j]}
  {
    assert keys[..j + 1] == keys[..j] + [keys[j]];
  }

  lemma NoStoreWants(p: Proc)
    ensures RequestPackets(p, StoreWantsOf(p, Elements([]))) == {}
  {
  }

  lemma NoRangeWants(p: Proc, from: Id, n: int, least: int)
    requires n == Get(p.last, from) + 1
    ensures RequestPackets(p, RangeWants(p, from, n, least)) == {}
  {
  }

  lemma StoreWantsNext(p: Proc, senders: set<Id>, k: Id)
    ensures StoreWantsOf(p, senders + {k}) == StoreWantsOf(p, senders) + StoreWantsOf(p, {k})
  {
  }

  lemma AllStoreWants(p: Proc, least: map<Id, int>, senders: set<Id>)
    requires IsLeastStored(p, least) && forall k :: k in least ==> k in senders
    ensures StoreWantsOf(p, senders) == StoreWants(p)
  {
    forall w | w in StoreWants(p) ensures w.from in senders {
      var m :| m in p.store && m.sender != p.id && m.sender == w.from;
    }
  }

  lemma InStoreWants(p: Proc, least: map<Id, int>, from: Id, i: int)
    requires IsLeastStored(p, least) && from in least && Get(p.last, from) < i < least[from]
    ensures Want(from, i, Holders(p, from, i)) in StoreWants(p)
  {
    var m :| m in p.store && m.sender == from && m.number == least[from];
    assert BelowStored(p, from, i);
  }

  ghost function RangeWants(p: Proc, from: Id, n: int, least: int): set<Want> {
    set i | Get(p.last, from) < i < n && i < least :: Want(from, i, Holders(p, from, i))
  }

  lemma RangeWantsNext(p: Proc, from: Id, n: int, least: int)
    requires Get(p.last, from) < n < least
    ensures RangeWants(p, from, n + 1, least) == RangeWants(p, from, n, least) + {Want(from, n, Holders(p, from, n))}
  {
  }

  lemma RangeIsAll(p: Proc, least: map<Id, int>, from: Id, n: int)
    requires IsLeastStored(p, least) && from in least && n >= least[from]
    ensures RangeWants(p, from, n, least[from]) == StoreWantsOf(p, {from})
  {
    forall w | w in RangeWants(p, from, n, least[from]) ensures w in StoreWantsOf(p, {from}) {
      InStoreWants(p, least, from, w.number);
    }
    forall w | w in StoreWantsOf(p, {from}) ensures w in RangeWants(p, from, n, least[from]) {
      var least0 :| least0 in p.store && least0.sender == from && least0.number == least[from];
      assert BelowStored(p, from, w.number);
    }
  }
}

# Verified models of the multicast chat, the replicated state machines and gtest's algorithms

A Dafny model of three parts of the repository, with proofs that hold for every input, every run and every
reachable state.

**MP1, the reliable multicast.** `Handlers` gives for each handler of one process the state after it and the packets
sent; `Network` puts a group of any size and a network that loses, repeats and reorders packets around it. `Invariance`,
`Casting` and `Reliability` prove the invariant of the whole system, and `Guarantees` and `ClockGuarantees` what
follows: FIFO prefix delivery, safe garbage collection, sound acknowledgements, well-aimed retransmission requests, and
that vector timestamps decide causality (`Causality`). `Effects` says what every event does in terms of packets,
counters and stores only, so that the handlers are pinned from outside: who is asked for what, what is delivered, what
is kept, what is reported; `Suspicions` says who is believed to have failed. `HappenedBefore` compares timestamps with
the causality of the events themselves, relays included, and `MessageOrder` is the order on messages.
`VectorClocks.Timestamp` and the classes of `ChatState` are the program's objects with its loops; each method is proved
to make the step of the protocol model. `Codec` is the byte format, `Transport` shows that it carries the messages of
every run unchanged, `EncodeBuffer` for which groups the buffer in front of it is long enough, and `DelayLine` is the
delay queue in front of the socket. `Ordering`, `Decimal` and `Helpers` hold what the others share.

**MP2, replica placement.** `Placement` models the leader's create, apply and remove over any number of replicas and
proves replica agreement, the exact extent of load balance, and when the cluster can stand for a single server.
`ReplicaHandler` holds the objects.

**gtest.** `SimpleRegex` (validator and backtracking matcher), `TestFilter` (wildcards and filters), `Utf8`, `XmlText`
(escaping and CDATA), `TestSuite` and `UnitTestImpl` (death tests first, shuffling, selection, sharding), `FisherYates`
(every order from one list of draws), and `PrimeTables`.

## How the model reads the program

- The network is a set of packets that only grows; a packet may arrive any number of times, in any order, or never. A
  handler runs to its end without interruption. A crash ends the steps of a process. A suspicion may happen at any time,
  of any other member: the timers are set for these only (MP1/heartbeat/heartbeat.cc:42-44).
- Process ids are natural numbers (UDP ports). Numbers in the protocol model are unbounded; in the codec they are 32-bit
  integers. Group membership is fixed, and a process's own id is in its group.
- A `set<Message*>` is walked in pointer order, and `sort` in `processUndelivered` sorts pointers too: both are an
  arbitrary order of the elements, so that everything holds for every such order. Erasing while walking the store is
  modelled as removing the deletable messages during the walk.
- `operator[]` on a map yields 0 for an absent key; `Get` reads the same, without inserting the key.
- A retransmitted message carries the timestamp of its creator, so the receiver's clock learns nothing of the process
  that retransmitted it. `Causality` counts such a message from its creation; `HappenedBefore` counts the relay as well.
- `sent`, `born` and `trace` in `Network.System` are history for the statements only.
- A decoded timestamp is owned by the sender of its message, so the codec model carries the clock without an owner; the
  machine is little-endian with 64-bit sizes.
- Random draws, clock readings and failure suspicions are parameters. `mcast.cc` and `nmcast.cc` are one model with a
  `Variant`: they differ in what is asked for again and in whether failed nodes are merged.
- State machines of MP2 are any pair of a constructor and an `apply` function; the leader is fixed and known to all.
  `getMemUtilization` returns 16 bits, and so does its model.
- A null `char*` is `CString.Null`; other C strings hold no NUL. Bytes of the wide-string conversion are 32-bit vectors
  below 256, so that shifts and masks are the program's.

## What does not hold as promised

Each point is proved together with its exact condition; the code is modelled as it is.

- Load balance: `getMemUtilization` truncates to 16 bits, so with more than three replicas placement stops being balanced
  once a load must pass 32767 (`Placement.BalancedIff`).
- The leader refuses `apply` and `remove` for existing machines it does not hold itself; only with exactly three replicas
  is the cluster indistinguishable from one server (`Placement.AnswerIff`, `Placement.TransparentIff`).
- `RE::FullMatch` is exact only for patterns that do not end in an escaped dollar (`SimpleRegex.FullMatchExactIff`).
- `CodePointToUtf8` promises an error text above U+10FFFF and gives it only above 21 bits (`Utf8.ErrorTextIff`); lone
  surrogates become malformed UTF-8 (`Utf8.Utf16IsPreserved`).
- A carriage return in CDATA does not survive an XML reader (`XmlText.MessageSurvivesIff`). Where `char` is signed, all
  bytes from 0x80 on count as invalid and are dropped (`XmlText.XmlIsKeptIff`).
- `OnTheFlyPrimeTable::GetNextPrime` returns -1 for negative arguments (`PrimeTables.OnTheFlyPrimeTable.GetNextPrime`).
- From 36 members on, some run writes past the encode buffer of 1000 bytes (`EncodeBuffer.RunsFitIff`,
  `Codec.BufferSuffices`).
- The order on messages is not transitive (`MessageOrder.TransitiveIff`, `MessageOrder.LessHasCycle`).

## Model

| member | source | states |
|---|---|---|
| `Reliability.RunInv` | MP1/mcast.cc:118-455 | the inductive invariant of the whole system (clocks, numbering, genuine messages, sound acknowledgements, stores, logs, nothing lost) holds after every run of either variant, for a group of any size and any loss, duplication, reordering, suspicion and crash |
| `Reliability.ReceiveInv` | MP1/mcast.cc:344-455 | receiving any packet of the network in any state of the invariant, with any order of delivery attempts, keeps the invariant |
| `Guarantees.FifoPrefixDelivery` | MP1/mcast.cc:285-342 | in every reachable state the delivery log of each process, restricted to one sender, is a prefix of the texts that sender multicast, in order; a sender has delivered all of its own; nothing comes from outside the group |
| `Guarantees.SafeGarbageCollection` | MP1/mcast.cc:233-283 | in every reachable state, a message that a process has delivered and no longer stores has been delivered by every member |
| `Guarantees.StillStored` | MP1/mcast.cc:233-283 | while any member lacks a message, every process that delivered it stores exactly the message its sender multicast, and no other under that number |
| `Effects.AsksIff` | MP1/mcast.cc:178-230 | in either variant and any state of the invariant, the receiver sends a new request for message i of a member to a process q if and only if the packet was a heartbeat or a multicast neither delivered nor stored, message i is missing (in the gap before the packet's number; under nmcast.cc, between the last delivered and the least held of that member), q is another member that reports to have it (under mcast.cc, to have the packet's number), and q is not believed to have failed |
| `Effects.ReceiptSends` | MP1/mcast.cc:178-230 | nothing else is sent: what a receipt puts into the network is such a request, carrying the clock and suspicions after the receipt and the deliveries before it, or the answer to a request |
| `Effects.AnswersIff` | MP1/mcast.cc:384-407 | a retransmission request is answered if and only if the message is stored and the asker is not believed to have failed, and then with exactly what its sender multicast |
| `Effects.DeliversIff` | MP1/mcast.cc:285-342 | a receipt delivers from a member if and only if it brings a new multicast and the next message of that member is then held; nothing delivered is taken back |
| `Effects.KeepsIff` | MP1/mcast.cc:233-283 | a new multicast is stored, and then exactly those messages go that every member is known to have delivered; any other receipt leaves the store alone |
| `Effects.ReceiptTeaches` | MP1/mcast.cc:344-382 | after a receipt every clock entry and every report of the sender is the larger of the two; under mcast.cc every suspicion of the message is held, under nmcast.cc (MP1/nmcast.cc:344) none is added |
| `Effects.MulticastEffect` | MP1/mcast.cc:118-160 | a multicast steps number and own clock entry by one, is delivered and stored at once, reports exactly what its sender has delivered of each member, and goes to exactly the other members not believed to have failed |
| `Effects.BeatEffect` | MP1/mcast.cc:19-48 | a heartbeat reports number, clock, suspicions and exactly the deliveries, to exactly the other members not believed to have failed, and changes no process |
| `Guarantees.RequestIsServed` | MP1/mcast.cc:233-283 | as long as some member has not delivered a message, a request for it that reaches a process which delivered it is answered with the original, unless the asker is believed to have failed |
| `Guarantees.AcknowledgementsAreSound` | MP1/state/state.cc:15-32 | in every reachable state, every recorded acknowledgement, and every one in any packet or stored message (third-party retransmissions included), is a lower bound on what its sender has really delivered |
| `Guarantees.NothingIsTakenBack` | MP1/state/state.cc:15-32 | no event ever lowers a delivery counter or a recorded acknowledgement |
| `Guarantees.AssertionNeverFires` | MP1/mcast.cc:203-204 | the assertion that somebody can be asked holds at every receipt in every run, in both variants |
| `Guarantees.RequestsAreWellAimed` | MP1/nmcast.cc:202-251 | each process asked for a message has delivered it and stores it at that moment, the asker has not delivered it, and under nmcast.cc does not store it either |
| `ClockGuarantees.TimestampsDecideCausality` | MP1/timestamp/timestamp.cc:29-83 | in every run, comparing the timestamps of two multicasts answers BEFORE (AFTER) if and only if the one happened before (after) the other, where receiving a message makes an edge from its creation at its creator, also when a third process retransmitted it |
| `HappenedBefore.TimestampsFollowEvents` | MP1/timestamp/timestamp.cc:29-83 | in every run, BEFORE implies that the first multicast event led to the second, through processes and packets of whatever sender; without deliveries of retransmitted messages the converse holds, too |
| `HappenedBefore.CausesLeads` | MP1/mcast.cc:344-382 | what the clock ticks say about causality is true of the events: each tick that causes another belongs to an event that led to the other's |
| `ClockGuarantees.ReceivedThenSent` | MP1/mcast.cc:118-146 | a process that multicast or received m1 before it multicasts m2 gives m2 a timestamp that m1 is BEFORE |
| `ClockGuarantees.NeverBackwards` | MP1/timestamp/timestamp.cc:33-59 | if m1 was multicast earlier in the run, m2 is never BEFORE m1 |
| `ClockGuarantees.OwnDeltaIsNegative` | MP1/mcast.cc:372-380 | on every receipt the delta at the own entry is negative, so a process never resets a failure timer for itself |
| `ClockGuarantees.PassIsConsecutive` | MP1/mcast.cc:322-336 | for any order of the undelivered messages, one pass advances each sender by consecutive numbers only, each taken from the list |
| `ClockGuarantees.PassMakesProgress` | MP1/mcast.cc:322-336 | for any order, a sender whose next message is in the list advances by at least one |
| `ClockGuarantees.AscendingPassDrains` | MP1/mcast.cc:322-336 | if the messages of a sender come in ascending order, one pass delivers its whole contiguous run |
| `Causality.BeforeIsHappenedBefore` | MP1/timestamp/timestamp.cc:29-83 | over any valid history of steps and updates, the comparison of two clocks answers BEFORE exactly if the first tick happened before the second |
| `Causality.EntryMeansKnowledge` | MP1/timestamp/timestamp.cc:61-83 | a clock entry reaches the rank of a tick exactly when the process knows of that tick |
| `Causality.EntryBounded` | MP1/timestamp/timestamp.cc:61-83 | nobody's entry for k exceeds the number of steps k itself has made |
| `Decimal.ParseShow` | MP1/mcast.cc:388-390 | the sender id that a request carries as text is read back unchanged |
| `VectorClocks.Timestamp.constructor` | MP1/timestamp/timestamp.cc:5-10 | the clock maps every member to 0 |
| `VectorClocks.Timestamp.StepOwn` | MP1/timestamp/timestamp.cc:29-31 | only the own entry grows, by one |
| `VectorClocks.Timestamp.Compare` | MP1/timestamp/timestamp.cc:33-59 | the counting loop with early exits decides the pointwise order of the two clocks |
| `VectorClocks.Timestamp.UpdateFrom` | MP1/timestamp/timestamp.cc:61-83 | in whatever order the entries are visited, the clock becomes the pointwise maximum except at the own entry, and diff holds the deltas to the clock before |
| `ChatState.Node.UpdateFailedNodes` | MP1/state/state.cc:11-13 | the failed nodes become the union |
| `ChatState.ExternalNode.UpdateDeliveryAckList` | MP1/state/state.cc:15-32 | the acknowledgement list becomes the entry-wise maximum with the other list |
| `ChatState.GlobalState.constructor` | MP1/state/state.cc:34-49 | the state starts as the initial process of the protocol, with one external node for each other member |
| `ChatState.GlobalState.GetMessage` | MP1/state/state.cc:65-73 | finds a stored message of that sender and number exactly if there is one |
| `ChatState.GlobalState.StoreMessage` | MP1/state/state.cc:75-80 | the message is added to the store and nothing else changes |
| `ChatState.GlobalState.PopulateAcknowledgements` | MP1/mcast.cc:84-96 | the map holds what this process has delivered from each member, itself included |
| `ChatState.GlobalState.Unicast` | MP1/mcast.cc:55-61 | sends one packet, or none to a process believed to have failed |
| `ChatState.GlobalState.MulticastDeliver` | MP1/mcast.cc:71-79 | counts the delivery for another sender and hands source and text up |
| `ChatState.GlobalState.Multicast` | MP1/mcast.cc:118-160 | steps clock and number, delivers and stores the message, and sends it to every other member not believed to have failed |
| `ChatState.GlobalState.RetransmissionRequests` | MP1/mcast.cc:178-230 | sends exactly one request for each missing number to each process known to have delivered the message at hand |
| `ChatState.GlobalState.MinSequenceNums` | MP1/nmcast.cc:177-200 | the two loops over the store find the least stored number of every other sender |
| `ChatState.GlobalState.RetransmissionRequestsFromStore` | MP1/nmcast.cc:172-252 | sends exactly the requests for the numbers between the last delivered and the least stored one of each sender |
| `ChatState.GlobalState.IsDeletable` | MP1/mcast.cc:244-267 | true exactly if the message is delivered here and reported as delivered by every other member |
| `ChatState.GlobalState.CleanMessageStore` | MP1/mcast.cc:233-283 | removes exactly the deletable messages, in whatever order the store is walked |
| `ChatState.GlobalState.ProcessUndelivered` | MP1/mcast.cc:285-342 | tries exactly the undelivered messages of the others once each, in an order that is not known beforehand |
| `ChatState.GlobalState.HeartbeatFailure` | MP1/mcast.cc:10-16 | the failed process joins the failed nodes |
| `ChatState.GlobalState.HeartbeatSend` | MP1/mcast.cc:19-48 | sends the current number, clock and acknowledgements to every other member and changes nothing |
| `ChatState.GlobalState.Receive` | MP1/mcast.cc:344-455 | from any valid state the handler takes the process to the state and sends the packets of the protocol step that the system theorems are about |
| `Codec.DecodeEncoded` | MP1/message/message.cc:34-184 | for every message whose sizes fit an int, decoding its encoding followed by any bytes gives the message (a heartbeat without body) and consumes exactly the encoded length |
| `Codec.RoundTripIff` | MP1/message/message.cc:117-137 | the trip is lossless if and only if the message is not a heartbeat with a body |
| `Codec.PrefixFree` | MP1/message/message.cc:108-110 | if two encodings with anything behind them are the same bytes, the messages and what follows are the same |
| `Codec.BufferSuffices` | MP1/mcast.cc:7 | every message that a group may encode (for a destination not believed to have failed, with a line of at most 255 characters and no NUL) fits the 1000-byte buffer if and only if the group has at most 35 members |
| `EncodeBuffer.RunsFitIff` | MP1/mcast.cc:55-61 | every packet of every run of a group of ports, with lines of at most 255 characters, fits the 1000-byte buffer if and only if the group has at most 35 members |
| `EncodeBuffer.PacketsFit` | MP1/mcast.cc:55-61 | the one half, packet by packet, for any ids of 31 bits |
| `EncodeBuffer.Overrun` | MP1/mcast.cc:7 | the other half as a run: a member that suspects all others but one multicasts a longest line |
| `Suspicions.FailedWereSuspected` | MP1/mcast.cc:10-16 | in every run, processes and messages hold only those as failed that some process has suspected, and these are members |
| `Suspicions.SuspicionsStay` | MP1/mcast.cc:10-16 | in every run a process holds those as failed that it has suspected, and under nmcast.cc nobody else |
| `Codec.EncodedLength` | MP1/message/message.cc:111-184 | the exact length of an encoding in terms of body and list sizes |
| `Codec.Layout` | MP1/message/message.cc:111-184 | the bytes of one message with every part in it, from the header to the failed processes |
| `Codec.AcceptedStart` | MP1/message/message.cc:34-71 | a packet that is accepted has headers of 1 in front of tag, sender and number, one of the three tags, and a body of the size in front of it |
| `Codec.Int4OfBytes4` | MP1/message/message.cc:27-31 | an integer appended to a buffer is munched back unchanged, sign included |
| `Codec.Writer.AppendInteger` | MP1/message/message.cc:102-106 | appends four bytes at the cursor and leaves the rest of the buffer alone |
| `Codec.Writer.AppendMap` | MP1/message/message.cc:149-170 | appends the count and the pairs in ascending key order |
| `Codec.GetEncodedMessage` | MP1/message/message.cc:111-184 | writes exactly the encoding, returns its length and leaves the rest of the buffer alone |
| `Codec.Reader.MunchMap` | MP1/message/message.cc:74-90 | reads as many pairs as the count divided by the unit says, in the arithmetic of the program, later keys overwriting earlier ones |
| `Codec.DecodeMessage` | MP1/message/message.cc:34-100 | the decoding constructor gives the message, or stops at the same check as the parser it is compared with |
| `Transport.PacketsSurvive` | MP1/mcast.cc:55-61 | for every packet of every run whose numbers are 32-bit integers, decoding its bytes, whatever follows them, gives back exactly the message that was sent |
| `MessageOrder.TransitiveIff` | MP1/message/message.cc:199-208 | on messages of one group, those of one sender never concurrent, the order is transitive if and only if no message is concurrent to an earlier and a later one and has a sender id strictly between theirs, the earlier one's being the larger |
| `MessageOrder.LessHasCycle` | MP1/message/message.cc:199-208 | three timestamps that a group of three can produce for which the order runs in a circle |
| `MessageOrder.LessIsAsymmetric` | MP1/message/message.cc:199-208 | no two messages over one group are less than each other |
| `DelayLine.InsertKeepsOrder` | MP1/unicast.cc:198-206 | insertion keeps the queue sorted by delivery time and adds exactly the new packet |
| `DelayLine.InsertPosition` | MP1/unicast.cc:201-202 | the new packet goes behind everything earlier and in front of everything due at the same time or later |
| `DelayLine.DueIsExact` | MP1/unicast.cc:238 | what is drained is exactly what is due |
| `DelayLine.NothingLostOrRepeated` | MP1/unicast.cc:198-253 | over every run, sent and waiting packets together are exactly the accepted ones, with their multiplicities, and the queue is sorted |
| `DelayLine.SentInTimeOrder` | MP1/unicast.cc:231-290 | over every run with a clock that does not go back, packets leave in the order of their delivery times and never before them |
| `DelayLine.DrainInOrder` | MP1/unicast.cc:238-253 | an alarm keeps that order and leaves nothing that is due |
| `DelayLine.DelayList.FindLink` | MP1/unicast.cc:199-202 | the pointer-to-pointer walk stops at the link where sorted insertion belongs |
| `DelayLine.DelayList.InsertMessage` | MP1/unicast.cc:198-206 | rewriting that link inserts the packet into the list in place |
| `DelayLine.DelayList.CatchAlarm` | MP1/unicast.cc:238-253 | the draining loop sends the due prefix in order and unlinks exactly it |
| `DelayLine.DelayList.Usend` | MP1/unicast.cc:263-284 | a packet that is not dropped is queued for now plus its delay |
| `DelayLine.DelayBounds` | MP1/unicast.cc:264 | a draw between 0 and 1 gives a delay from half a second to ten seconds, in proportion |
| `Placement.RunInv` | MP2/src/replica/replica_handler.cpp:357-552 | over every run of a leader with at least three replicas, each name is held by none or exactly three, every holder's machine is the initial state with the acknowledged operations applied in order, memUtilization counts the machines, and no request stays queued |
| `Placement.FreshCreate` | MP2/src/replica/replica_handler.cpp:367-411 | a name nobody holds is placed on three different replicas, none of which reports more than one left out |
| `Placement.FullCreate` | MP2/src/replica/replica_handler.cpp:393-410 | a name with three copies is left alone |
| `Placement.AnswerIff` | MP2/src/replica/replica_handler.cpp:440-494 | the leader answers as a single server would if and only if the operation is a create, or the name does not exist, or the leader itself holds it; create raises ALREADY_EXISTS exactly for existing names |
| `Placement.TransparentIff` | MP2/src/replica/replica_handler.cpp:440-552 | the whole cluster is indistinguishable from a single server in all runs if and only if it has exactly three replicas |
| `Placement.LeaderLacks` | MP2/src/replica/replica_handler.cpp:447 | for every leader of more than three replicas there is a run after which an existing name is missing at the leader |
| `Placement.CreateBalancedIff` | MP2/src/replica/replica_handler.cpp:369-389 | a fresh create keeps balanced loads balanced if and only if there are three replicas or no two loads lie on both sides of a 16-bit boundary |
| `Placement.BalancedIff` | MP2/src/replica/replica_handler.cpp:365-411 | over runs of fresh creates from empty, most and least loaded replica differ by at most one throughout if and only if there are three replicas or the creates number at most 1 + 32767 n / 3 |
| `Placement.ChoiceIsLeast` | MP2/src/replica/replica_handler.cpp:371-389 | the scan picks the first replica without the name that reports the least |
| `Placement.WritesAreCounted` | MP2/src/replica/replica_handler.cpp:447-493 | the bandwidth counter of a replica grows by one with each write it serves and not otherwise |
| `ReplicaHandler.Replica.Create` | MP2/src/replica/replica_handler.cpp:421-437 | a replica that is not the leader adds the machine or raises ALREADY_EXISTS |
| `ReplicaHandler.Replica.Apply` | MP2/src/replica/replica_handler.cpp:447-493 | a write on an idle queue is served at once, leaves the queue empty, and raises NOT_FOUND exactly if the machine is missing |
| `ReplicaHandler.Replica.Remove` | MP2/src/replica/replica_handler.cpp:533-541 | the machine, its count and its queue go, or NOT_FOUND |
| `ReplicaHandler.Leader.Survey` | MP2/src/replica/replica_handler.cpp:371-389 | the loop counts the holders and finds the choice |
| `ReplicaHandler.Leader.Create` | MP2/src/replica/replica_handler.cpp:365-420 | the three rounds make the create step of the cluster and give its answer |
| `ReplicaHandler.Leader.Apply` | MP2/src/replica/replica_handler.cpp:447-493 | the fan-out makes the apply step of the cluster and gives its answer |
| `ReplicaHandler.Leader.Remove` | MP2/src/replica/replica_handler.cpp:533-551 | the fan-out makes the remove step of the cluster and gives its answer |
| `SimpleRegex.ValidIffInGrammar` | MP2/lib/gtest-1.6.0/src/gtest-port.cc:226-286 | the checks of the validator hold exactly for the texts of the grammar: optional ^, atoms each with an optional repetition, optional $ |
| `SimpleRegex.ValidateRegex` | MP2/lib/gtest-1.6.0/src/gtest-port.cc:232-286 | the loop accepts exactly the non-null texts of that grammar |
| `SimpleRegex.PrintInjective` | MP2/lib/gtest-1.6.0/src/gtest-port.cc:226-286 | a pattern has only one syntax tree, so its language is well defined |
| `SimpleRegex.AtomMatchesIff` | MP2/lib/gtest-1.6.0/src/gtest-port.cc:203-222 | for every well-formed atom and every character, the program's test holds exactly if the character is in the atom's class, the classes being given character by character (ten digits, six blanks, letters with digits and underscore, their complements, all but newline, the character itself) |
| `SimpleRegex.AtomOkIff` | MP2/lib/gtest-1.6.0/src/gtest-port.cc:178-199 | what the validator takes for an atom is a backslash with one of the 32 punctuation marks or eleven letters, or any other character than NUL, backslash and the twelve marks with a meaning |
| `SimpleRegex.RepetitionMeans` | MP2/lib/gtest-1.6.0/src/gtest-port.cc:295-317 | an atom followed by ?, * or + stands for at most one, any number, or at least one character of its class |
| `SimpleRegex.HeadIsLanguage` | MP2/lib/gtest-1.6.0/src/gtest-port.cc:289-348 | if a prefix (all of it, with $) is in the language, the item-by-item unfolding holds |
| `SimpleRegex.LanguageOfHead` | MP2/lib/gtest-1.6.0/src/gtest-port.cc:289-348 | if the unfolding holds, some prefix (all of it, with $) is in the language |
| `SimpleRegex.MatchRepetitionAndRegexAtHead` | MP2/lib/gtest-1.6.0/src/gtest-port.cc:295-317 | terminates and answers whether some number of repetitions leaves a matching rest |
| `SimpleRegex.MatchRegexAtHead` | MP2/lib/gtest-1.6.0/src/gtest-port.cc:322-348 | terminates and answers whether the pattern matches at the head |
| `SimpleRegex.MatchRegexAnywhere` | MP2/lib/gtest-1.6.0/src/gtest-port.cc:358-371 | terminates and is true if and only if neither pointer is null and some substring, placed as the anchors demand, is in the language of the pattern |
| `SimpleRegex.RE.Init` | MP2/lib/gtest-1.6.0/src/gtest-port.cc:392-423 | the pattern is kept, its validity decided, and the full pattern is the text of the anchored syntax tree |
| `SimpleRegex.RE.PartialMatch` | MP2/lib/gtest-1.6.0/src/gtest-port.cc:387-389 | true exactly for a valid pattern and a string with a matching substring |
| `SimpleRegex.RE.FullMatch` | MP2/lib/gtest-1.6.0/src/gtest-port.cc:381-383 | decides the language of the full pattern |
| `SimpleRegex.FullPatternText` | MP2/lib/gtest-1.6.0/src/gtest-port.cc:408-422 | the text that Init builds prints the pattern with both anchors, except that an escaped final dollar is taken for the end anchor |
| `SimpleRegex.FullMatchExactIff` | MP2/lib/gtest-1.6.0/src/gtest-port.cc:419-420 | FullMatch decides whether the whole string is in the language, for all strings, if and only if the pattern does not end in an escaped dollar |
| `SimpleRegex.SampleWord` | MP2/lib/gtest-1.6.0/src/gtest-port.cc:203-222 | every syntax tree has a word |
| `TestFilter.PatternIsGlob` | MP2/lib/gtest-1.6.0/src/gtest.cc:433-448 | the recursive matcher terminates and decides the wildcard language of the pattern up to its first colon |
| `TestFilter.MatchesFilter` | MP2/lib/gtest-1.6.0/src/gtest.cc:450-468 | true exactly if some of the colon-separated patterns matches |
| `TestFilter.FilterMatchesTest` | MP2/lib/gtest-1.6.0/src/gtest.cc:474-502 | selects a test exactly if some positive pattern matches its full name and no negative one does |
| `TestFilter.NegativeOnly` | MP2/lib/gtest-1.6.0/src/gtest.cc:492-495 | a filter that starts with a dash selects the complement of its list |
| `TestFilter.NoDashExcludesNothing` | MP2/lib/gtest-1.6.0/src/gtest.cc:487-488 | without a dash nothing is excluded |
| `TestFilter.DashDivides` | MP2/lib/gtest-1.6.0/src/gtest.cc:484-496 | the first dash of a filter divides it into the positive list, everything if that is empty, and the negative one |
| `TestFilter.SelectsIff` | MP2/lib/gtest-1.6.0/src/gtest.cc:474-502 | for every filter, a test is selected exactly if its name "case.test" (of less than 4096 characters) is matched by the list in front of the first dash, or that is empty, and not by the list behind it |
| `CStrings.JoinSplit` | MP2/lib/gtest-1.6.0/src/gtest.cc:457-466 | splitting at the separator loses nothing and leaves no separator |
| `Utf8.DecodeEncodedFirst` | MP2/lib/gtest-1.6.0/src/gtest.cc:1435-1466 | for every number of up to 21 bits the bytes decode, by section 3 of RFC 3629, to that number if it is a Unicode scalar value and are malformed otherwise |
| `Utf8.CodePointToUtf8` | MP2/lib/gtest-1.6.0/src/gtest.cc:1435-1466 | the shifting and masking writes those bytes and a NUL |
| `Utf8.WideStringToUtf8` | MP2/lib/gtest-1.6.0/src/gtest.cc:1504-1526 | the loop converts the units up to the limit or the first NUL |
| `Utf8.UnitsAre` | MP2/lib/gtest-1.6.0/src/gtest.cc:1504-1514 | what is converted is the longest piece without NUL within the limit |
| `Utf8.CodePointsAreUtf16` | MP2/lib/gtest-1.6.0/src/gtest.cc:1475-1489 | combining pairs gives what section 2.2 of RFC 2781 decodes, except that a lone surrogate is no error |
| `Utf8.Utf16IsPreserved` | MP2/lib/gtest-1.6.0/src/gtest.cc:1504-1526 | with a 16-bit wchar_t, decoding the output gives exactly what decoding the input as UTF-16 gives, and fails exactly when that fails |
| `Utf8.Utf32IsPreserved` | MP2/lib/gtest-1.6.0/src/gtest.cc:1504-1526 | with a 32-bit wchar_t and any units, the output is well-formed exactly if every unit is a scalar value or has more than 21 bits, and decodes to the units if and only if all of them are scalar values |
| `Utf8.ErrorTextIff` | MP2/lib/gtest-1.6.0/src/gtest.cc:1430-1434 | the error text appears if and only if the number has more than 21 bits, although it is promised for everything above U+10FFFF; in between the output is four malformed bytes |
| `Utf8.ErrorTextReads` | MP2/lib/gtest-1.6.0/src/gtest.cc:1450-1465 | the error text holds the number in upper-case hexadecimal without leading zeros |
| `XmlText.AttributeIsPreserved` | MP2/lib/gtest-1.6.0/src/gtest.cc:3124-3164 | reading an escaped attribute by section 3.3.3 of XML 1.0 gives the text with only its invalid characters removed |
| `XmlText.AttributeSurvives` | MP2/lib/gtest-1.6.0/src/gtest.cc:3153-3154 | the same after the line-end handling of section 2.11: white space in attributes survives |
| `XmlText.TextIsPreserved` | MP2/lib/gtest-1.6.0/src/gtest.cc:3124-3164 | reading escaped text gives the text with only its invalid characters removed |
| `XmlText.ValidOnlyIff` | MP2/lib/gtest-1.6.0/src/gtest.cc:3024-3026 | nothing is removed exactly if all characters are valid in the sense of the program |
| `XmlText.XmlIsKeptIff` | MP2/lib/gtest-1.6.0/src/gtest.cc:3024-3026 | a text of XML characters is kept as it is if and only if `char` is unsigned or all of them are below 0x80 |
| `XmlText.UmlautIsDropped` | MP2/lib/gtest-1.6.0/src/gtest.cc:3024-3026 | the byte 0xC3 is an XML character, kept where `char` is unsigned and dropped where it is signed |
| `XmlText.ValidOnlyXml` | MP2/lib/gtest-1.6.0/src/gtest.cc:3169-3177 | what is left after the removal consists of XML characters of production 2 of XML 1.0 only |
| `XmlText.EscapedIsXml` | MP2/lib/gtest-1.6.0/src/gtest.cc:3124-3164 | an escaped text consists of XML characters only |
| `XmlText.EscapedHasNo` | MP2/lib/gtest-1.6.0/src/gtest.cc:3124-3164 | an escaped text holds no raw angle bracket, in attributes no raw quote and no tab or line end |
| `XmlText.EscapeXml` | MP2/lib/gtest-1.6.0/src/gtest.cc:3124-3164 | the loop escapes character by character; null gives the empty text |
| `XmlText.RemoveInvalidXmlCharacters` | MP2/lib/gtest-1.6.0/src/gtest.cc:3169-3177 | the loop keeps exactly the valid characters |
| `XmlText.OutputXmlCDataSection` | MP2/lib/gtest-1.6.0/src/gtest.cc:3203-3220 | the loop from end mark to end mark writes the section with every end mark split |
| `XmlText.SectionIsRead` | MP2/lib/gtest-1.6.0/src/gtest.cc:3203-3220 | reading the section by section 2.7 of XML 1.0 gives the data back if all of it are XML characters, and fails otherwise |
| `XmlText.SectionSurvivesIff` | MP2/lib/gtest-1.6.0/src/gtest.cc:3203-3220 | with the line-end handling of section 2.11 the data comes back if and only if it holds XML characters only and no carriage return |
| `XmlText.MessageSurvivesIff` | MP2/lib/gtest-1.6.0/src/gtest.cc:3258-3260 | a failure message, as it is filtered and written, is always readable; the filtered text comes back if and only if the message holds no carriage return, and the message itself if and only if all of it is also valid in the sense of the program |
| `TestSuite.ShuffleIsPermutation` | MP2/lib/gtest-1.6.0/src/gtest-internal-inl.h:302-319 | a shuffle permutes its range, for any state of the generator, and leaves the rest alone |
| `TestSuite.DeathTestsFirst` | MP2/lib/gtest-1.6.0/src/gtest.cc:4096-4128 | after any run of registrations (made while unshuffled), shuffles and unshufflings, every death test case runs before every other and each case has exactly one turn |
| `TestSuite.TestsOnce` | MP2/lib/gtest-1.6.0/src/gtest.cc:2424-2472 | after any such run each test of a case has exactly one turn |
| `TestSuite.NothingIsLost` | MP2/lib/gtest-1.6.0/src/gtest.cc:4096-4128 | after any such run the tests of a case are exactly those registered for it, in order of registration |
| `TestSuite.UnshuffleRestores` | MP2/lib/gtest-1.6.0/src/gtest.cc:4499-4506 | no run of shuffles and unshufflings keeps the next unshuffling from restoring the suite as it was registered |
| `TestSuite.OneShard` | MP2/lib/gtest-1.6.0/src/gtest.cc:4366-4425 | a runnable test is selected by exactly one shard of any number of shards, by every process without sharding, and an unrunnable one by none |
| `TestSuite.TakenCount` | MP2/lib/gtest-1.6.0/src/gtest.cc:4366-4368 | each shard takes its part of the runnable tests, rounded up for the first ones, so that parts differ by at most one |
| `TestSuite.AllTaken` | MP2/lib/gtest-1.6.0/src/gtest.cc:4366-4368 | together the shards take every runnable test |
| `TestSuite.ShardsBalanced` | MP2/lib/gtest-1.6.0/src/gtest.cc:4366-4425 | each shard marks exactly its part, rounded up for the first ones, of the tests that run without sharding |
| `TestSuite.RunsIff` | MP2/lib/gtest-1.6.0/src/gtest.cc:4398-4412 | without sharding a test runs if and only if the filter selects it and neither its name nor that of its case starts with DISABLED_ or contains /DISABLED_, the latter only unless disabled tests are asked for, too |
| `TestSuite.FlagAdds` | MP2/lib/gtest-1.6.0/src/gtest.cc:4412 | asking for disabled tests adds exactly the selected disabled ones |
| `TestSuite.CaseRunsIff` | MP2/lib/gtest-1.6.0/src/gtest.cc:4390-4425 | a case is marked to run exactly if one of its tests is |
| `TestSuite.DisabledIff` | MP2/lib/gtest-1.6.0/src/gtest.cc:150 | the filter for disabled names matches exactly the names that start with DISABLED_ or contain /DISABLED_ |
| `TestSuite.DeathIff` | MP2/lib/gtest-1.6.0/src/gtest.cc:155 | the filter for death test cases matches exactly the names that end in DeathTest or contain DeathTest/ |
| `TestSuite.CasesInOrder` | MP2/lib/gtest-1.6.0/src/gtest.cc:4096-4129 | after any run the death test cases are listed in the order of their first registration, and behind them the others in theirs |
| `FisherYates.EveryOrder` | MP2/lib/gtest-1.6.0/src/gtest-internal-inl.h:302-319 | every order of the range comes from some list of draws |
| `FisherYates.DrawsAreUnique` | MP2/lib/gtest-1.6.0/src/gtest-internal-inl.h:302-319 | and from only one, if the elements differ, so that uniform draws make all orders equally likely |
| `FisherYates.ShuffledByDraws` | MP2/lib/gtest-1.6.0/src/gtest-internal-inl.h:302-319 | the shuffle of the program is that of the draws of its generator, one for each width from the range down to 2 |
| `FisherYates.SuiteByDraws` | MP2/lib/gtest-1.6.0/src/gtest.cc:4484-4496 | shuffling the suite draws from one generator in turn for the death test cases, the other cases, and the tests of each case |
| `FisherYates.NextIsReversible` | MP2/lib/gtest-1.6.0/src/gtest.cc:284-298 | the generator never comes from two states to the same one |
| `FisherYates.FirstNumbers` | MP2/lib/gtest-1.6.0/src/gtest.cc:284-298 | its states from 0 on |
| `UnitTestImpl.Random.Generate` | MP2/lib/gtest-1.6.0/src/gtest.cc:284-298 | the next state of the generator, reduced below the range |
| `UnitTestImpl.ShuffleRange` | MP2/lib/gtest-1.6.0/src/gtest-internal-inl.h:302-319 | the loop is the Fisher-Yates shuffle that the permutation lemma is about |
| `UnitTestImpl.TestCase.UnshuffleTests` | MP2/lib/gtest-1.6.0/src/gtest.cc:2468-2472 | the loop restores the order of registration |
| `UnitTestImpl.TestCase.FilterTests` | MP2/lib/gtest-1.6.0/src/gtest.cc:4394-4425 | marks each test of a case by filter, disabled name and shard, and counts |
| `UnitTestImpl.Registry.GetTestCase` | MP2/lib/gtest-1.6.0/src/gtest.cc:4096-4129 | finds the case, or inserts a new one behind the last death test case or at the end |
| `UnitTestImpl.Registry.AddTestInfo` | MP2/lib/gtest-1.6.0/src/gtest-internal-inl.h:649-652 | adds the test to its case |
| `UnitTestImpl.Registry.ShuffleTests` | MP2/lib/gtest-1.6.0/src/gtest.cc:4484-4496 | shuffles death test cases, the other cases and the tests inside each, in this order, with one generator |
| `UnitTestImpl.Registry.UnshuffleTests` | MP2/lib/gtest-1.6.0/src/gtest.cc:4499-4506 | every order becomes that of registration |
| `UnitTestImpl.Registry.FilterTests` | MP2/lib/gtest-1.6.0/src/gtest.cc:4377-4428 | marks all tests, with ids that count the runnable ones in list order, and returns how many this shard selects |
| `PrimeTables.LargerPrime` | MP2/lib/gtest-1.6.0/samples/prime_tables.h:69-75 | Euclid: above every number there is a prime, so the search without a table terminates |
| `PrimeTables.PrimeBySmallFactors` | MP2/lib/gtest-1.6.0/samples/prime_tables.h:61-66 | a number without divisor up to its square root is prime |
| `PrimeTables.OnTheFlyPrimeTable.IsPrime` | MP2/lib/gtest-1.6.0/samples/prime_tables.h:58-67 | trial division decides primality of every integer |
| `PrimeTables.OnTheFlyPrimeTable.GetNextPrime` | MP2/lib/gtest-1.6.0/samples/prime_tables.h:69-75 | terminates, and returns the least prime above p if and only if p >= 0; for negative p it returns -1 |
| `PrimeTables.PreCalculatedPrimeTable.constructor` | MP2/lib/gtest-1.6.0/samples/prime_tables.h:83-86 | for max >= 1 the table is correct for all numbers up to max |
| `PrimeTables.PreCalculatedPrimeTable.CalculatePrimesUpTo` | MP2/lib/gtest-1.6.0/samples/prime_tables.h:102-114 | the sieve leaves exactly the primes |
| `PrimeTables.PreCalculatedPrimeTable.IsPrime` | MP2/lib/gtest-1.6.0/samples/prime_tables.h:89-91 | decides primality up to the size of the table |
| `PrimeTables.PreCalculatedPrimeTable.GetNextPrime` | MP2/lib/gtest-1.6.0/samples/prime_tables.h:93-99 | the least prime above p, or -1 exactly if the table holds none |
| `PrimeTables.HybridPrimeTable.IsPrime` | MP2/lib/gtest-1.6.0/samples/sample8_unittest.cc:62-67 | decides primality of every integer, with or without the table |
| `PrimeTables.HybridPrimeTable.GetNextPrime` | MP2/lib/gtest-1.6.0/samples/sample8_unittest.cc:69-75 | the least prime above p exactly if p >= 0, or p is -1 and the table reaches 2; otherwise -1 |

## Left out

- ChatState.GlobalState.CleanMessageStore: does not capture that the program erases from the set it is iterating over.
- ChatState.GlobalState.Receive: asks that the sender of the message is another member and, for nmcast.cc, that message
  numbers fit an int; the failure timers it resets are not part of this model.
- ChatState.GlobalState.RetransmissionRequestsFromStore: asks that stored numbers fit an int, because INT_MAX stands for
  "no message yet".
- Codec.GetEncodedMessage: asks for room in the buffer; the program does not check it, and `Codec.BufferSuffices` says
  when the fixed buffer has it.
- Transport.PacketsSurvive: asks that the numbers of a message are 32-bit integers and its sizes fit, since the protocol
  model counts without bound.
- Codec.DecodeMessage: a packet that is too short is an error here; the program reads on behind it, as its length
  argument is unused.
- DelayLine.DelayList.CatchAlarm: setting the alarm again is left out, because its time comes from casting a time of day
  in microseconds to 32 bits, which has no defined result; time is a real number, not a double.
- UnitTestImpl.ShuffleRange: gives back the shuffled sequence, where the program swaps in place.
- UnitTestImpl.TestCase.FilterTests: the tests of a case are values inside it, not objects that others may share.
- UnitTestImpl.Registry.FilterTests: a shard index is used as given; the environment variables and the checks on them
  (ShouldShard) are left out.
- PrimeTables.HybridPrimeTable.GetNextPrime: asks for p >= -1 when there is a table, because the program would read in
  front of its array; 32-bit overflow of the search is not modelled.
- PrimeTables.PreCalculatedPrimeTable.GetNextPrime: asks for p >= -1 for the same reason.
- SimpleRegex.ValidateRegex: the error messages it records are left out.
- XmlText.MessageSurvivesIff: works byte by byte, so that bytes from 0x80 on are taken for allowed characters; whether
  they are well-formed UTF-8 is the subject of `Utf8`.
- Utf8.WideStringToUtf8: asks that the string is terminated, or long enough for the given number of characters.
- Causal delivery order: comments promise it, but the program sorts pointers, and the order on what they point to has
  cycles (`MessageOrder.LessHasCycle`).
- Eventual delivery: a heartbeat carrying number q asks only for numbers below q, so a lost last message waits for later
  traffic.
- The MP2 leader election, reads (prepareGetState, getState and their queue entries), copying to replicas that miss a
  machine, replica failures and more than one leader.
- Sockets, signals, threads, the group file, generated RPC code, the clients and the chat user interface.
- The older copies MP1/mcast.old.cc, MP1/mcast_happy.cc and MP1/mcast_submitted.cc, which repeat mcast.cc.
- Memory ownership and data races, which atomic steps and values abstract away.
- The rest of gtest: assertions, printers, parameterized tests, death-test processes, reports other than the escaping.

/**
 * Why `Network` may carry messages instead of bytes: whatever a process of any run puts on the wire is what the codec
 * gives back at the other end.
 */
module Transport {
  import opened VectorClocks
  import opened Ordering
  import opened Handlers
  import opened Network
  import opened Reliability
  import Codec

  predicate IsInt32(x: int) {
    -0x8000_0000 <= x < 0x8000_0000
  }

  predicate MapFits(m: map<Id, int>) {
    forall k :: k in m ==> IsInt32(k) && IsInt32(m[k])
  }

  /** Every number of the message is a 32-bit `int`, every character one byte, and the sizes fit. */
  predicate Fits(m: Message) {
    && IsInt32(m.sender) && IsInt32(m.number) && MapFits(m.clock) && MapFits(m.acks)
    && (forall q :: q in m.failed ==> IsInt32(q))
    && (forall i :: 0 <= i < |m.body| ==> m.body[i] as int < 256)
    && |m.body| + 1 < 0x8000_0000 && 8 * |m.acks| < 0x8000_0000
    && 4 * |m.clock| < 0x8000_0000 && 4 * |m.failed| < 0x8000_0000
  }

  function Bytes(body: string): seq<Codec.Byte>
    requires forall i :: 0 <= i < |body| ==> body[i] as int < 256
  {
    seq(|body|, i requires 0 <= i < |body| => body[i] as int)
  }

  function Text(body: seq<Codec.Byte>): string {
    seq(|body|, i requires 0 <= i < |body| => body[i] as char)
  }

  function ToWire(m: Message): Codec.Wire
    requires Fits(m)
  {
    Codec.Wire(m.sender, m.number, m.clock, m.kind, Bytes(m.body), m.acks, m.failed)
  }

  /** The ids of a message that arrives are those of processes. */
  predicate IdsOk(w: Codec.Wire) {
    && w.sender >= 0 && (forall k :: k in w.clock ==> k >= 0) && (forall k :: k in w.acks ==> k >= 0)
    && forall q :: q in w.failed ==> q >= 0
  }

  function FromWire(w: Codec.Wire): Message
    requires IdsOk(w)
  {
    Message(w.sender, w.number, w.clock, w.kind, Text(w.body), w.acks, w.failed)
  }

  lemma NothingChanged(m: Message)
    requires Fits(m)
    ensures IdsOk(ToWire(m)) && FromWire(ToWire(m)) == m
  {
    assert Text(Bytes(m.body)) == m.body;
  }

  lemma HeartbeatIsEmpty(s: System, k: Packet)
    requires Inv(s) && k in s.net
    ensures k.msg.kind == HEARTBEAT ==> k.msg.body == ""
  {
    hide Inv, Stamped, AcksBelow;
    PacketFacts(s, k);
  }

  /** In any run, what is decoded from a packet, whatever follows it in the buffer, is the message that was sent. */
  lemma PacketsSurvive(v: Variant, group: set<Id>, run: seq<Event>, k: Packet, suffix: seq<Codec.Byte>)
    requires IsRun(v, group, run) && k in After(v, group, run).net && Fits(k.msg)
    ensures
      var bytes := Codec.Encoded(ToWire(k.msg));
      && Codec.Decoded(bytes + suffix) == Codec.Ok((ToWire(k.msg), |bytes|))
      && IdsOk(ToWire(k.msg)) && FromWire(ToWire(k.msg)) == k.msg
  {
    hide Inv, Codec.Encoded, Codec.Decoded, After;
    RunInv(v, group, run);
    HeartbeatIsEmpty(After(v, group, run), k);
    Codec.RoundTripIff(ToWire(k.msg), suffix);
    NothingChanged(k.msg);
  }
}

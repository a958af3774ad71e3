/** The encode buffer over runs: which groups never send a packet that is longer. */
module EncodeBuffer {
  import opened VectorClocks
  import opened Ordering
  import opened Causality
  import opened Helpers
  import opened Handlers
  import opened Network
  import opened Reliability
  import opened Guarantees
  import opened Suspicions
  import opened Transport
  import Codec
  import Decimal
  import Invariance

  // ---- the bodies are short

  /** Every line of the run fits the chat client's line buffer. */
  predicate ShortLines(run: seq<Event>) {
    forall i :: 0 <= i < |run| && run[i].Multicasts? ==> |run[i].text| <= Codec.LONGEST_LINE
  }

  lemma {:induction false} TextsAreShort(run: seq<Event>, q: Id)
    requires ShortLines(run)
    ensures forall i :: 0 <= i < |Texts(run, q)| ==> |Texts(run, q)[i]| <= Codec.LONGEST_LINE
  {
    if run != [] {
      TextsAreShort(run[..|run| - 1], q);
    }
  }

  lemma {:induction false} BodyAt(ms: seq<Message>, i: nat)
    requires i < |ms|
    ensures |Bodies(ms)| == |ms| && Bodies(ms)[i] == ms[i].body
  {
    if i < |ms| - 1 {
      BodyAt(ms[..|ms| - 1], i);
    } else {
      BodiesLength(ms[..|ms| - 1]);
    }
  }

  lemma {:induction false} BodiesLength(ms: seq<Message>)
    ensures |Bodies(ms)| == |ms|
  {
    if ms != [] {
      BodiesLength(ms[..|ms| - 1]);
    }
  }

  function Power10(d: nat): nat {
    if d == 0 then 1 else 10 * Power10(d - 1)
  }

  lemma {:induction false} ShowLength(n: nat, d: nat)
    requires d > 0 && n < Power10(d)
    ensures |Decimal.Show(n)| <= d
  {
    if n >= 10 {
      ShowLength(n / 10, d - 1);
    }
  }

  lemma PortLength(n: nat)
    requires n < 0x8000_0000
    ensures |Decimal.Show(n)| <= 10
  {
    assert Power10(10) == 10_000_000_000 by {
      assert Power10(5) == 100_000;
      assert Power10(6) == 1_000_000;
      assert Power10(8) == 100_000_000;
    }
    ShowLength(n, 10);
  }

  lemma BodyIsShort(v: Variant, group: set<Id>, run: seq<Event>, k: Packet)
    requires IsRun(v, group, run) && k in After(v, group, run).net && ShortLines(run)
    requires forall q :: q in group ==> q < 0x8000_0000
    ensures |k.msg.body| <= Codec.LONGEST_LINE
  {
    hide Inv, After, IsRun, Stamped, AcksBelow;
    var s := After(v, group, run);
    RunInv(v, group, run);
    PacketFacts(s, k);
    match k.msg.kind
    case HEARTBEAT =>
    case RETRANSREQUEST =>
      var from :| from in s.group && k.msg.body == Decimal.Show(from);
      PortLength(from);
    case MESSAGE =>
      var q := k.msg.sender;
      BodyAt(s.sent[q], k.msg.number - 1);
      SentAreTexts(v, group, run, q);
      TextsAreShort(run, q);
  }

  // ---- the length of a packet

  lemma PacketKeys(v: Variant, group: set<Id>, run: seq<Event>, k: Packet)
    requires IsRun(v, group, run) && k in After(v, group, run).net
    ensures k.msg.acks.Keys == group && k.msg.clock.Keys == group && k.msg.failed <= group
  {
    hide Inv, After, IsRun, KindOk, AcksBelow;
    var s := After(v, group, run);
    RunInv(v, group, run);
    FailedWereSuspected(v, group, run);
    PacketFacts(s, k);
    TraceOk(s);
    ValidPrefix(s.group, s.trace, s.born[k.msg]);
    CurrentKeys(s.group, s.trace[..s.born[k.msg]], k.msg.sender);
  }

  lemma WireLength(m: Message, n: nat)
    requires Fits(m) && |m.body| <= Codec.LONGEST_LINE
    requires |m.acks.Keys| == n && |m.clock.Keys| == n && |m.failed| <= n
    ensures |Codec.Encoded(ToWire(m))| <= 293 + 20 * n
  {
    hide Codec.Encoded;
    Codec.EncodedLength(ToWire(m));
    assert |m.acks.Keys| == |m.acks| && |m.clock.Keys| == |m.clock|;
  }

  // ---- a run that overruns the buffer

  /** `s` is the start of `group`, except that `a` believes `failed` to have failed. */
  predicate StartsWith(s: System, group: set<Id>, a: Id, failed: set<Id>) {
    s == Start(group).(procs := Start(group).procs[a := InitialProc(a, group).(failed := failed)])
  }

  lemma {:induction false} SuspectAll(v: Variant, group: set<Id>, a: Id, failed: set<Id>) returns (run: seq<Event>)
    requires a in group && failed <= group - {a}
    ensures IsRun(v, group, run) && StartsWith(After(v, group, run), group, a, failed)
    ensures forall i :: 0 <= i < |run| ==> run[i].Suspects?
    decreases failed
  {
    hide IsRun, After, StartsWith;
    if failed == {} {
      run := [];
      NothingSuspected(v, group, a);
    } else {
      var q :| q in failed;
      var before := SuspectAll(v, group, a, failed - {q});
      run := before + [Suspects(a, q)];
      SuspectOne(v, group, a, failed - {q}, q, before);
      assert failed - {q} + {q} == failed;
    }
  }

  lemma NothingSuspected(v: Variant, group: set<Id>, a: Id)
    requires a in group
    ensures IsRun(v, group, []) && StartsWith(After(v, group, []), group, a, {})
  {
    assert Start(group).procs[a := InitialProc(a, group)] == Start(group).procs;
  }

  lemma SuspectOne(v: Variant, group: set<Id>, a: Id, failed: set<Id>, q: Id, before: seq<Event>)
    requires a in group && q in group && q != a
    requires IsRun(v, group, before) && StartsWith(After(v, group, before), group, a, failed)
    ensures IsRun(v, group, before + [Suspects(a, q)])
    ensures StartsWith(After(v, group, before + [Suspects(a, q)]), group, a, failed + {q})
  {
    hide IsRun, After, StartsWith, Enabled, Apply;
    SuspicionStep(v, After(v, group, before), group, a, failed, q);
    RunNext(v, group, before, Suspects(a, q));
  }

  lemma SuspicionStep(v: Variant, s: System, group: set<Id>, a: Id, failed: set<Id>, q: Id)
    requires a in group && q in group && q != a && StartsWith(s, group, a, failed)
    ensures Enabled(v, s, Suspects(a, q)) && StartsWith(Apply(v, s, Suspects(a, q)), group, a, failed + {q})
  {
  }

  lemma FirstCast(group: set<Id>, a: Id, failed: set<Id>, text: string)
    requires a in group
    ensures
      var (after, m) := Cast(InitialProc(a, group).(failed := failed), text);
      && after.id == a && after.failed == failed && after.last.Keys == group - {a}
      && m.sender == a && m.number == 1 && m.kind == MESSAGE && m.body == text && m.failed == failed
      && m.clock.Keys == m.acks.Keys == group
      && (forall k :: k in group ==> 0 <= m.clock[k] <= 1 && 0 <= m.acks[k] <= 1)
  {
  }

  lemma FirstMulticast(v: Variant, s: System, group: set<Id>, a: Id, b: Id, failed: set<Id>, text: string)
    requires a in group && StartsWith(s, group, a, failed) && b in group - {a} - failed
    ensures s.procs[a] == InitialProc(a, group).(failed := failed) && Enabled(v, s, Multicasts(a, text))
    ensures Packet(a, b, Cast(s.procs[a], text).1) in Apply(v, s, Multicasts(a, text)).net
  {
    hide Register, Cast, InitialProc;
    FirstCast(group, a, failed, text);
  }

  /** The ids are UDP ports. */
  predicate ArePorts(group: set<Id>) {
    forall q :: q in group ==> q < 0x1_0000
  }

  lemma FewPorts(group: set<Id>)
    requires ArePorts(group)
    ensures |group| <= 0x1_0000
  {
    hide Below;
    BelowElements(0x1_0000);
    SubsetSize(group, Below(0x1_0000));
  }

  lemma LongestFits(m: Message, group: set<Id>)
    requires ArePorts(group) && m.sender in group && m.number == 1 && m.failed <= group
    requires m.clock.Keys == m.acks.Keys == group
    requires forall k :: k in group ==> 0 <= m.clock[k] <= 1 && 0 <= m.acks[k] <= 1
    requires m.kind == MESSAGE && m.body == seq(Codec.LONGEST_LINE, i => 'x') && |m.failed| == |group| - 2
    ensures Fits(m) && |Codec.Encoded(ToWire(m))| == 285 + 20 * |group|
  {
    hide Codec.Encoded;
    FewPorts(group);
    assert |m.acks.Keys| == |m.acks| && |m.clock.Keys| == |m.clock|;
    Codec.EncodedLength(ToWire(m));
  }

  /** A member that suspects all others but one, then multicasts a longest line, writes past a buffer of 1000 bytes. */
  lemma Overrun(v: Variant, group: set<Id>) returns (run: seq<Event>, k: Packet)
    requires ArePorts(group) && |group| > 35
    ensures Sends(v, group, run, k) && |Codec.Encoded(ToWire(k.msg))| > Codec.ENCODE_BUFFER
  {
    hide After, IsRun, Codec.Encoded, ToWire, Fits, Cast, Apply, Enabled;
    var a :| a in group;
    assert |group - {a}| == |group| - 1;
    var b :| b in group - {a};
    var failed := group - {a} - {b};
    var text := seq(Codec.LONGEST_LINE, i => 'x');
    var before := SuspectAll(v, group, a, failed);
    var s := After(v, group, before);
    FirstMulticast(v, s, group, a, b, failed, text);
    FirstCast(group, a, failed, text);
    run := before + [Multicasts(a, text)];
    k := Packet(a, b, Cast(s.procs[a], text).1);
    RunNext(v, group, before, Multicasts(a, text));
    LongestFits(k.msg, group);
  }

  lemma RunNext(v: Variant, group: set<Id>, before: seq<Event>, e: Event)
    requires IsRun(v, group, before) && Enabled(v, After(v, group, before), e)
    ensures IsRun(v, group, before + [e]) && After(v, group, before + [e]) == Apply(v, After(v, group, before), e)
  {
    hide Enabled, Apply;
    assert (before + [e])[..|before|] == before;
  }

  // ---- the theorem

  /** Packet `k` is sent in `run`, whose lines fit the line buffer; its numbers fit 32 bits. */
  ghost predicate Sends(v: Variant, group: set<Id>, run: seq<Event>, k: Packet) {
    IsRun(v, group, run) && k in After(v, group, run).net && ShortLines(run) && Fits(k.msg)
  }

  lemma PacketsFit(v: Variant, group: set<Id>, run: seq<Event>, k: Packet)
    requires Sends(v, group, run, k) && |group| <= 35
    ensures |Codec.Encoded(ToWire(k.msg))| <= Codec.ENCODE_BUFFER
  {
    hide After, IsRun, Codec.Encoded, ToWire;
    PacketKeys(v, group, run, k);
    BodyIsShort(v, group, run, k);
    SubsetSize(k.msg.failed, group);
    WireLength(k.msg, |group|);
  }

  /** Every packet of every run fits the encode buffer exactly if the group has at most 35 members. */
  lemma RunsFitIff(v: Variant, group: set<Id>)
    requires ArePorts(group)
    ensures (forall run, k | Sends(v, group, run, k) :: |Codec.Encoded(ToWire(k.msg))| <= Codec.ENCODE_BUFFER)
      <==> |group| <= 35
  {
    hide After, IsRun, Codec.Encoded, ToWire;
    if |group| <= 35 {
      forall run, k | Sends(v, group, run, k) ensures |Codec.Encoded(ToWire(k.msg))| <= Codec.ENCODE_BUFFER {
        PacketsFit(v, group, run, k);
      }
    } else {
      var run, k := Overrun(v, group);
    }
  }
}

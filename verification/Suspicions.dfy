/** Who is believed to have failed: nobody that no process has suspected. */
module Suspicions {
  import opened VectorClocks
  import opened Ordering
  import opened Handlers
  import opened Network
  import opened Invariance
  import opened Reliability
  import opened Guarantees
  import opened Effects

  /** Processes and messages hold nobody else as failed. */
  ghost predicate FailedIn(s: System, f: set<Id>) {
    && (forall p :: p in s.procs ==> s.procs[p].failed <= f)
    && (forall m :: m in s.born ==> m.failed <= f)
  }

  /** Those that some process suspects during `run`. */
  function Suspected(run: seq<Event>): set<Id> {
    if run == [] then {} else Suspected(run[..|run| - 1]) + Accused(run[|run| - 1])
  }

  function Accused(e: Event): set<Id> {
    if e.Suspects? then {e.q} else {}
  }


  lemma ReceiveFailed(v: Variant, p: Proc, m: Message, c: Choice, f: set<Id>)
    requires p.failed <= f && m.failed <= f && ChoiceOk(v, p, m, c)
    requires forall w :: w in p.store ==> w.failed <= f
    ensures HandleReceive(v, p, m, c).0.failed <= f && HandleReceive(v, p, m, c).0.id == p.id
    ensures forall k :: k in HandleReceive(v, p, m, c).1 ==> k.msg.failed <= f
  {
    hide Update, Step, MergeAcks, Wants, AlreadyReceived;
    var p1 := Learn(v, p, m);
    LearnFailed(v, p, m);
    DeliverKeeps(Keep(p1, m), c.order);
    RequestsFailed(p1, Wants(v, p1, m));
    RequestsFailed(Keep(p1, m), Wants(v, Keep(p1, m), m));
  }

  lemma LearnFailed(v: Variant, p: Proc, m: Message)
    ensures var p1 := Learn(v, p, m); p1.id == p.id && p1.store == p.store && p1.failed <= p.failed + m.failed
  {
  }

  lemma RequestsFailed(p: Proc, wants: set<Want>)
    ensures forall k :: k in RequestPackets(p, wants) ==> k.msg.failed == p.failed
  {
  }

  lemma StepFailed(v: Variant, s: System, e: Event, f: set<Id>)
    requires Inv(s) && Enabled(v, s, e) && FailedIn(s, f)
    ensures FailedIn(Apply(v, s, e), f + Accused(e))
  {
    hide Inv, SendTo, HandleReceive, ChoiceOk, Register;
    match e
    case Multicasts(p, text) => MulticastFailed(v, s, p, text, f);
    case Beats(p) => Registered(s.born, {Beat(s.procs[p])}, |s.trace|);
    case Receives(k, c) => ReceiptFailed(v, s, k, c, f);
    case Suspects(p, q) => InvShape(s, p);
    case Crashes(p) =>
  }

  lemma MulticastFailed(v: Variant, s: System, p: Id, text: string, f: set<Id>)
    requires Inv(s) && Enabled(v, s, Multicasts(p, text)) && FailedIn(s, f)
    ensures FailedIn(Apply(v, s, Multicasts(p, text)), f)
  {
    hide Inv, SendTo, Register, Cast;
    InvShape(s, p);
    CastFailed(s.procs[p], text);
    Registered(s.born, {Cast(s.procs[p], text).1}, |s.trace| + 1);
  }

  lemma ReceiptFailed(v: Variant, s: System, k: Packet, c: Choice, f: set<Id>)
    requires Inv(s) && Enabled(v, s, Receives(k, c)) && FailedIn(s, f)
    ensures FailedIn(Apply(v, s, Receives(k, c)), f)
  {
    hide Inv, HandleReceive, ChoiceOk, Register, Genuine, KindOk, ProcShape;
    InvShape(s, k.dest);
    PacketFacts(s, k);
    forall w | w in s.procs[k.dest].store ensures w.failed <= f {
      StoredBorn(s, k.dest, w);
    }
    ReceiveFailed(v, s.procs[k.dest], k.msg, c, f);
    Registered(s.born, Contents(HandleReceive(v, s.procs[k.dest], k.msg, c).1), |s.trace| + 1);
  }

  lemma CastFailed(p: Proc, text: string)
    ensures
      var (after, m) := Cast(p, text);
      after.id == p.id && after.failed == p.failed && m.failed == p.failed
  {
    hide Step, Acknowledgements;
  }

  lemma Registered(born: map<Message, nat>, ms: set<Message>, n: nat)
    ensures forall m :: m in Register(born, ms, n) <==> m in born || m in ms
  {
  }

  /** Over every run, processes and messages hold only those as failed that some process has suspected. */
  lemma {:induction false} FailedWereSuspected(v: Variant, group: set<Id>, run: seq<Event>)
    requires IsRun(v, group, run)
    ensures FailedIn(After(v, group, run), Suspected(run)) && Suspected(run) <= group
  {
    hide Apply, Inv;
    if run != [] {
      var before := run[..|run| - 1];
      FailedWereSuspected(v, group, before);
      RunInv(v, group, before);
      StepFailed(v, After(v, group, before), run[|run| - 1], Suspected(before));
    }
  }

  /** Over every run a process holds those as failed that it suspects, and under nmcast.cc nobody else. */
  lemma {:induction false} SuspicionsStay(v: Variant, group: set<Id>, run: seq<Event>, p: Id, q: Id)
    requires IsRun(v, group, run) && p in group
    ensures p in After(v, group, run).procs
    ensures Suspects(p, q) in run ==> q in After(v, group, run).procs[p].failed
    ensures v == Nmcast ==> (Suspects(p, q) in run <==> q in After(v, group, run).procs[p].failed)
  {
    hide Apply, Inv, Enabled;
    if run != [] {
      var before, e := run[..|run| - 1], run[|run| - 1];
      SuspicionsStay(v, group, before, p, q);
      RunInv(v, group, before);
      SuspicionStep(v, After(v, group, before), e, p, q);
      assert run == before + [e];
    }
  }

  lemma SuspicionStep(v: Variant, s: System, e: Event, p: Id, q: Id)
    requires Inv(s) && Enabled(v, s, e) && p in s.group
    ensures p in s.procs && p in Apply(v, s, e).procs
    ensures q in s.procs[p].failed || e == Suspects(p, q) ==> q in Apply(v, s, e).procs[p].failed
    ensures v == Nmcast ==>
      (q in s.procs[p].failed || e == Suspects(p, q) <==> q in Apply(v, s, e).procs[p].failed)
  {
    hide Inv, SendTo, HandleReceive, ChoiceOk, Register, ProcShape;
    match e
    case Multicasts(a, text) =>
      InvShape(s, a);
      CastFailed(s.procs[a], text);
      InvShape(s, p);
    case Beats(a) => InvShape(s, p);
    case Receives(k, c) =>
      InvShape(s, p);
      ReceiptTeaches(v, s, k, c);
    case Suspects(a, _) =>
      InvShape(s, a);
      InvShape(s, p);
    case Crashes(a) => InvShape(s, p);
  }
}

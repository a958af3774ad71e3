/**
 * Replicated state machines (MP2/src/replica/replica_handler.cpp): how the leader places copies and fans writes out.
 * Handlers run to completion, one leader is fixed and known to all, and no replica fails.
 */
module Placement {
  import opened Helpers

  const MIN_REPLICAS := 3

  /** A state machine class: its constructor and its `apply`. */
  datatype Semantics<!S> = Semantics(make: string -> S, step: (S, string) -> (S, string))

  datatype Mode = Read | Write

  datatype Request = Request(mode: Mode, text: string)

  datatype Outcome = Done(result: string) | NotFound | AlreadyExists

  /** The state of one replica. */
  datatype Rep<S> = Rep(
    machines: map<string, S>, requestQueue: map<string, seq<Request>>, queueLen: int, bwUtilization: int,
    memUtilization: int)

  type Cluster<S> = seq<Rep<S>>

  // ---- one replica

  predicate Holds<S>(r: Rep<S>, name: string) {
    name in r.machines
  }

  /** The value of `x` as an `int16_t`. */
  function Int16(x: int): int {
    (x + 0x8000) % 0x1_0000 - 0x8000
  }

  /** What getMemUtilization answers: its RPC result has 16 bits. */
  function Reported<S>(r: Rep<S>): int {
    Int16(r.memUtilization)
  }

  function EmptyRep<S>(): Rep<S> {
    Rep(map[], map[], 0, 0, 0)
  }

  /** A new machine; the leader does not set up a request queue for its own copy. */
  function WithMachine<S>(sem: Semantics<S>, r: Rep<S>, own: bool, name: string, init: string): Rep<S> {
    r.(machines := r.machines[name := sem.make(init)],
       memUtilization := r.memUtilization + 1,
       requestQueue := if own || name in r.requestQueue then r.requestQueue else r.requestQueue[name := []])
  }

  /** A write: the request is enqueued, found at the head of an empty queue, served and dequeued. */
  function Written<S>(sem: Semantics<S>, r: Rep<S>, name: string, op: string): Rep<S>
    requires Holds(r, name)
  {
    r.(machines := r.machines[name := sem.step(r.machines[name], op).0],
       bwUtilization := r.bwUtilization + 1,
       requestQueue := r.requestQueue[name := []])
  }

  function Without<S>(r: Rep<S>, name: string): Rep<S> {
    r.(machines := r.machines - {name}, memUtilization := r.memUtilization - 1, requestQueue := r.requestQueue - {name})
  }

  // ---- the leader

  ghost function HoldersUpTo<S>(c: Cluster<S>, name: string, n: nat): set<nat>
    requires n <= |c|
  {
    set i: nat | i < n && Holds(c[i], name)
  }

  ghost function Holders<S>(c: Cluster<S>, name: string): set<nat> {
    HoldersUpTo(c, name, |c|)
  }

  /** The first replica without the machine that reports the least, among the first `n`; -1 if all have it. */
  ghost function Choice<S>(c: Cluster<S>, name: string, n: nat): (m: int)
    requires n <= |c|
    ensures -1 <= m < n
  {
    if n == 0 then -1
    else
      var m := Choice(c, name, n - 1);
      if !Holds(c[n - 1], name) && (m < 0 || Reported(c[n - 1]) < Reported(c[m])) then n - 1 else m
  }

  ghost function Place<S>(sem: Semantics<S>, leader: nat, c: Cluster<S>, name: string, init: string, m: int): Cluster<S>
    requires m < |c|
  {
    if m < 0 then c else c[m := WithMachine(sem, c[m], m == leader, name, init)]
  }

  ghost function Round<S>(sem: Semantics<S>, leader: nat, c: Cluster<S>, name: string, init: string): (r: Cluster<S>)
    ensures |r| == |c|
  {
    if |Holders(c, name)| < MIN_REPLICAS then Place(sem, leader, c, name, init, Choice(c, name, |c|)) else c
  }

  ghost function Rounds<S>(sem: Semantics<S>, leader: nat, c: Cluster<S>, name: string, init: string, k: nat)
    : (r: Cluster<S>)
    ensures |r| == |c|
  {
    if k == 0 then c else Round(sem, leader, Rounds(sem, leader, c, name, init, k - 1), name, init)
  }

  datatype Op = Create(name: string, init: string) | Apply(name: string, op: string) | Remove(name: string)

  /** The cluster and the outcome after the leader has handled an operation. */
  ghost function Step<S>(sem: Semantics<S>, leader: nat, c: Cluster<S>, e: Op): (r: (Cluster<S>, Outcome))
    requires leader < |c|
    ensures |r.0| == |c|
  {
    match e
    case Create(name, init) =>
      (Rounds(sem, leader, c, name, init, MIN_REPLICAS), if Holders(c, name) == {} then Done("") else AlreadyExists)
    case Apply(name, op) =>
      if !Holds(c[leader], name) then (c, NotFound)
      else
        (seq(|c|, i requires 0 <= i < |c| => if Holds(c[i], name) then Written(sem, c[i], name, op) else c[i]),
         Done(sem.step(c[leader].machines[name], op).1))
    case Remove(name) =>
      if !Holds(c[leader], name) then (c, NotFound)
      else (seq(|c|, i requires 0 <= i < |c| => if Holds(c[i], name) then Without(c[i], name) else c[i]), Done(""))
  }

  /** The write count of a replica: it grows by one with each write that the replica serves, and not otherwise. */
  lemma WritesAreCounted<S>(sem: Semantics<S>, leader: nat, c: Cluster<S>, e: Op, i: nat)
    requires leader < |c| && i < |c|
    ensures Step(sem, leader, c, e).0[i].bwUtilization == c[i].bwUtilization +
      if e.Apply? && e.name in c[leader].machines && e.name in c[i].machines then 1 else 0
  {
    hide Round, HoldersUpTo;
    if e.Create? {
      CreateCounts(sem, leader, c, e.name, e.init, MIN_REPLICAS, i);
    }
  }

  lemma {:induction false} CreateCounts<S>(
      sem: Semantics<S>, leader: nat, c: Cluster<S>, name: string, init: string, k: nat, i: nat)
    requires i < |c|
    ensures Rounds(sem, leader, c, name, init, k)[i].bwUtilization == c[i].bwUtilization
  {
    hide HoldersUpTo, Choice;
    if k > 0 {
      CreateCounts(sem, leader, c, name, init, k - 1, i);
    }
  }

  // ---- the single machine that the cluster stands for

  /** A machine by its history: the initial state and the operations applied since. */
  datatype Life = Life(init: string, ops: seq<string>)

  type Service = map<string, Life>

  function Replay<S>(sem: Semantics<S>, l: Life): S
    decreases |l.ops|
  {
    if l.ops == [] then sem.make(l.init)
    else sem.step(Replay(sem, Life(l.init, l.ops[..|l.ops| - 1])), l.ops[|l.ops| - 1]).0
  }

  /** What a single server without replicas would do. */
  function Ideal<S>(sem: Semantics<S>, a: Service, e: Op): (Service, Outcome) {
    match e
    case Create(name, init) =>
      if name in a then (a, AlreadyExists) else (a[name := Life(init, [])], Done(""))
    case Apply(name, op) =>
      if name !in a then (a, NotFound)
      else (a[name := Life(a[name].init, a[name].ops + [op])], Done(sem.step(Replay(sem, a[name]), op).1))
    case Remove(name) =>
      if name !in a then (a, NotFound) else (a - {name}, Done(""))
  }

  /** The history after an operation: it counts if the leader did not refuse it. */
  function Recorded<S>(sem: Semantics<S>, a: Service, e: Op, o: Outcome): Service {
    if o.Done? then Ideal(sem, a, e).0 else a
  }

  datatype World<S> = World(cluster: Cluster<S>, service: Service)

  function Empty<S>(n: nat): Cluster<S> {
    seq(n, i => EmptyRep())
  }

  ghost function Advance<S>(sem: Semantics<S>, leader: nat, w: World<S>, e: Op): World<S>
    requires leader < |w.cluster|
  {
    var (c, o) := Step(sem, leader, w.cluster, e);
    World(c, Recorded(sem, w.service, e, o))
  }

  /** A run of `n` replicas from empty, and the history of what was not refused. */
  ghost function After<S>(sem: Semantics<S>, n: nat, leader: nat, es: seq<Op>): (w: World<S>)
    requires leader < n
    ensures |w.cluster| == n
  {
    if es == [] then World(Empty(n), map[])
    else Advance(sem, leader, After(sem, n, leader, es[..|es| - 1]), es[|es| - 1])
  }

  // ---- the invariant

  predicate CountersOk<S>(r: Rep<S>) {
    && r.memUtilization == |r.machines| && r.queueLen == 0
    && forall name :: name in r.requestQueue ==> r.requestQueue[name] == []
  }

  predicate Agrees<S(==)>(sem: Semantics<S>, r: Rep<S>, a: Service) {
    forall name :: name in r.machines ==> name in a && r.machines[name] == Replay(sem, a[name])
  }

  predicate RepOk<S(==)>(sem: Semantics<S>, r: Rep<S>, a: Service) {
    CountersOk(r) && Agrees(sem, r, a)
  }

  ghost predicate ThreeOrNone<S>(c: Cluster<S>, a: Service, name: string) {
    |Holders(c, name)| == if name in a then 3 else 0
  }

  ghost predicate Inv<S>(sem: Semantics<S>, w: World<S>) {
    && (forall i {:trigger w.cluster[i]} :: 0 <= i < |w.cluster| ==> RepOk(sem, w.cluster[i], w.service))
    && (forall name {:trigger ThreeOrNone(w.cluster, w.service, name)} :: ThreeOrNone(w.cluster, w.service, name))
  }

  // ---- the choice

  lemma {:induction false} ChoiceIsLeast<S>(c: Cluster<S>, name: string, n: nat)
    requires n <= |c|
    ensures Choice(c, name, n) < 0 <==> forall i :: 0 <= i < n ==> Holds(c[i], name)
    ensures Choice(c, name, n) >= 0 ==>
      var m := Choice(c, name, n);
      && !Holds(c[m], name)
      && (forall i :: 0 <= i < n && !Holds(c[i], name) ==> Reported(c[m]) <= Reported(c[i]))
      && (forall i :: 0 <= i < m && !Holds(c[i], name) ==> Reported(c[m]) < Reported(c[i]))
  {
    if n > 0 {
      ChoiceIsLeast(c, name, n - 1);
    }
  }

  lemma {:induction false} HoldersBound<S>(c: Cluster<S>, name: string, n: nat)
    requires n <= |c|
    ensures |HoldersUpTo(c, name, n)| <= n
    ensures (forall i :: 0 <= i < n ==> Holds(c[i], name)) ==> |HoldersUpTo(c, name, n)| == n
  {
    hide HoldersUpTo, Holds;
    if n == 0 {
      NoHolders(c, name);
    } else {
      HoldersBound(c, name, n - 1);
      HoldersNext(c, name, n - 1);
    }
  }

  lemma NoHolders<S>(c: Cluster<S>, name: string)
    ensures HoldersUpTo(c, name, 0) == {}
  {
  }

  lemma HoldersNext<S>(c: Cluster<S>, name: string, n: nat)
    requires n < |c|
    ensures HoldersUpTo(c, name, n + 1) == HoldersUpTo(c, name, n) + if Holds(c[n], name) then {n} else {}
    ensures |HoldersUpTo(c, name, n + 1)| == |HoldersUpTo(c, name, n)| + if Holds(c[n], name) then 1 else 0
  {
    assert HoldersUpTo(c, name, n + 1) == HoldersUpTo(c, name, n) + if Holds(c[n], name) then {n} else {};
  }

  /** While copies are missing, a round adds one at a replica without the machine that reports the least. */
  lemma RoundPlaces<S>(sem: Semantics<S>, leader: nat, c: Cluster<S>, name: string, init: string) returns (m: nat)
    requires |c| >= MIN_REPLICAS && |Holders(c, name)| < MIN_REPLICAS
    ensures m < |c| && !Holds(c[m], name)
    ensures Round(sem, leader, c, name, init) == c[m := WithMachine(sem, c[m], m == leader, name, init)]
    ensures forall i :: 0 <= i < |c| && !Holds(c[i], name) ==> Reported(c[m]) <= Reported(c[i])
    ensures Holders(Round(sem, leader, c, name, init), name) == Holders(c, name) + {m}
    ensures |Holders(Round(sem, leader, c, name, init), name)| == |Holders(c, name)| + 1
  {
    hide Reported, WithMachine;
    ChoiceIsLeast(c, name, |c|);
    HoldersBound(c, name, |c|);
    m := Choice(c, name, |c|);
    MachineIsNew(sem, c[m], m == leader, name, init);
    var r := c[m := WithMachine(sem, c[m], m == leader, name, init)];
    assert Holders(r, name) == Holders(c, name) + {m};
  }

  lemma MachineIsNew<S>(sem: Semantics<S>, r: Rep<S>, own: bool, name: string, init: string)
    ensures Holds(WithMachine(sem, r, own, name, init), name)
    ensures forall other :: other != name ==> (Holds(WithMachine(sem, r, own, name, init), other) <==> Holds(r, other))
  {
  }

  /** `r` is `c` with copies of a new machine at `places`. */
  ghost predicate Placed<S>(
      sem: Semantics<S>, leader: nat, c: Cluster<S>, r: Cluster<S>, name: string, init: string, places: set<nat>)
  {
    && |r| == |c|
    && forall i {:trigger r[i]} :: 0 <= i < |c| ==>
         r[i] == if i in places then WithMachine(sem, c[i], i == leader, name, init) else c[i]
  }

  /** No replica in `places` reports more than one outside. */
  ghost predicate LeastLoaded<S>(c: Cluster<S>, places: set<nat>) {
    forall p, u :: p in places && p < |c| && 0 <= u < |c| && u !in places ==> Reported(c[p]) <= Reported(c[u])
  }

  /** A fresh name is placed at three replicas that report the least. */
  lemma FreshCreate<S>(sem: Semantics<S>, leader: nat, c: Cluster<S>, name: string, init: string) returns (places: set<nat>)
    requires |c| >= MIN_REPLICAS && Holders(c, name) == {}
    ensures |places| == MIN_REPLICAS && forall p :: p in places ==> p < |c|
    ensures Placed(sem, leader, c, Rounds(sem, leader, c, name, init, MIN_REPLICAS), name, init, places)
    ensures Holders(Rounds(sem, leader, c, name, init, MIN_REPLICAS), name) == places
    ensures LeastLoaded(c, places)
  {
    hide WithMachine, Reported, Round, Holders, Holds;
    var c1 := Round(sem, leader, c, name, init);
    var c2 := Round(sem, leader, c1, name, init);
    var c3 := Round(sem, leader, c2, name, init);
    var m0 := RoundPlaces(sem, leader, c, name, init);
    var m1 := RoundPlaces(sem, leader, c1, name, init);
    var m2 := RoundPlaces(sem, leader, c2, name, init);
    places := {m0, m1, m2};
    RoundsOfThree(sem, leader, c, name, init);
    HoldersHold(c, name);
    HoldersHold(c1, name);
    HoldersHold(c2, name);
    assert m1 != m0 && m2 != m0 && m2 != m1;
    ThreePlaced(sem, leader, c, name, init, m0, m1, m2);
    assert LeastLoaded(c, places) by {
      assert forall u :: 0 <= u < |c| && u !in places ==> !Holds(c[u], name) && c1[u] == c[u] && c2[u] == c[u];
      assert c1[m1] == c[m1] && c2[m2] == c[m2];
    }
  }

  lemma ThreePlaced<S>(
      sem: Semantics<S>, leader: nat, c: Cluster<S>, name: string, init: string, m0: nat, m1: nat, m2: nat)
    requires m0 < |c| && m1 < |c| && m2 < |c| && m1 != m0 && m2 != m0 && m2 != m1
    ensures
      var c1 := c[m0 := WithMachine(sem, c[m0], m0 == leader, name, init)];
      var c2 := c1[m1 := WithMachine(sem, c1[m1], m1 == leader, name, init)];
      var c3 := c2[m2 := WithMachine(sem, c2[m2], m2 == leader, name, init)];
      Placed(sem, leader, c, c3, name, init, {m0, m1, m2})
  {
    hide WithMachine;
  }

  lemma HoldersHold<S>(c: Cluster<S>, name: string)
    ensures forall i: nat :: i < |c| ==> (i in Holders(c, name) <==> Holds(c[i], name))
  {
  }

  lemma RoundsOfThree<S>(sem: Semantics<S>, leader: nat, c: Cluster<S>, name: string, init: string)
    ensures Rounds(sem, leader, c, name, init, MIN_REPLICAS)
      == Round(sem, leader, Round(sem, leader, Round(sem, leader, c, name, init), name, init), name, init)
  {
    hide Round;
    assert Rounds(sem, leader, c, name, init, 1) == Round(sem, leader, c, name, init);
    assert Rounds(sem, leader, c, name, init, 2) == Round(sem, leader, Rounds(sem, leader, c, name, init, 1), name, init);
  }

  /** A name with all its copies is left alone. */
  lemma {:induction false} FullCreate<S>(
      sem: Semantics<S>, leader: nat, c: Cluster<S>, name: string, init: string, k: nat)
    requires |Holders(c, name)| >= MIN_REPLICAS
    ensures Rounds(sem, leader, c, name, init, k) == c
  {
    if k > 0 {
      FullCreate(sem, leader, c, name, init, k - 1);
    }
  }

  // ---- every step keeps the invariant

  lemma SameHolders<S>(c: Cluster<S>, r: Cluster<S>, name: string)
    requires |r| == |c| && forall i :: 0 <= i < |c| ==> (Holds(r[i], name) <==> Holds(c[i], name))
    ensures Holders(r, name) == Holders(c, name)
  {
  }

  lemma WithMachineOk<S>(sem: Semantics<S>, r: Rep<S>, own: bool, a: Service, name: string, init: string)
    requires RepOk(sem, r, a) && name !in a
    ensures RepOk(sem, WithMachine(sem, r, own, name, init), a[name := Life(init, [])])
    ensures RepOk(sem, r, a[name := Life(init, [])])
  {
    hide CountersOk, WithMachine, Replay;
    assert !Holds(r, name);
    NewMachineCounts(sem, r, own, name, init);
    NewMachineAgrees(sem, r, own, a, name, init);
  }

  lemma NewMachineCounts<S>(sem: Semantics<S>, r: Rep<S>, own: bool, name: string, init: string)
    requires CountersOk(r) && !Holds(r, name)
    ensures CountersOk(WithMachine(sem, r, own, name, init))
  {
    SizeAfterAdding(r.machines, name, sem.make(init));
  }

  lemma SizeAfterAdding<S>(m: map<string, S>, k: string, v: S)
    requires k !in m
    ensures |m[k := v]| == |m| + 1
  {
    assert m[k := v].Keys == m.Keys + {k};
    assert |m[k := v].Keys| == |m[k := v]| && |m.Keys| == |m|;
  }

  lemma NewMachineAgrees<S>(sem: Semantics<S>, r: Rep<S>, own: bool, a: Service, name: string, init: string)
    requires Agrees(sem, r, a) && name !in a
    ensures Agrees(sem, WithMachine(sem, r, own, name, init), a[name := Life(init, [])])
    ensures Agrees(sem, r, a[name := Life(init, [])])
  {
    var b := a[name := Life(init, [])];
    assert Replay(sem, b[name]) == sem.make(init);
  }

  lemma WrittenOk<S>(sem: Semantics<S>, r: Rep<S>, a: Service, name: string, op: string)
    requires RepOk(sem, r, a) && name in a
    ensures
      var b := a[name := Life(a[name].init, a[name].ops + [op])];
      if Holds(r, name) then RepOk(sem, Written(sem, r, name, op), b) else RepOk(sem, r, b)
  {
    var b := a[name := Life(a[name].init, a[name].ops + [op])];
    assert b[name].ops[..|b[name].ops| - 1] == a[name].ops;
    assert Life(a[name].init, a[name].ops) == a[name];
    if Holds(r, name) {
      assert r.machines[name := sem.step(r.machines[name], op).0].Keys == r.machines.Keys;
      assert |r.machines[name := sem.step(r.machines[name], op).0].Keys| == |r.machines.Keys|;
    }
  }

  lemma WithoutOk<S>(sem: Semantics<S>, r: Rep<S>, a: Service, name: string)
    requires RepOk(sem, r, a)
    ensures if Holds(r, name) then RepOk(sem, Without(r, name), a - {name}) else RepOk(sem, r, a - {name})
  {
    if Holds(r, name) {
      assert (r.machines - {name}).Keys == r.machines.Keys - {name};
      assert |(r.machines - {name}).Keys| == |r.machines.Keys| - 1;
    }
  }

  lemma CreateInv<S>(sem: Semantics<S>, leader: nat, w: World<S>, name: string, init: string)
    requires Inv(sem, w) && leader < |w.cluster| && |w.cluster| >= MIN_REPLICAS
    ensures Inv(sem, Advance(sem, leader, w, Create(name, init)))
    ensures Step(sem, leader, w.cluster, Create(name, init)).1 == Ideal(sem, w.service, Create(name, init)).1
  {
    hide RepOk, WithMachine, Holds, Holders, Rounds;
    var c, a := w.cluster, w.service;
    assert ThreeOrNone(c, a, name);
    if name in a {
      FullCreate(sem, leader, c, name, init, MIN_REPLICAS);
    } else {
      var places := FreshCreate(sem, leader, c, name, init);
      var r, b := Rounds(sem, leader, c, name, init, MIN_REPLICAS), a[name := Life(init, [])];
      forall i | 0 <= i < |r| ensures RepOk(sem, r[i], b) {
        WithMachineOk(sem, c[i], i == leader, a, name, init);
      }
      forall other ensures ThreeOrNone(r, b, other) {
        if other != name {
          assert ThreeOrNone(c, a, other);
          PlacedElsewhere(sem, leader, c, r, name, init, places, other);
        }
      }
      assert Advance(sem, leader, w, Create(name, init)) == World(r, b);
    }
  }

  lemma PlacedElsewhere<S>(
      sem: Semantics<S>, leader: nat, c: Cluster<S>, r: Cluster<S>, name: string, init: string, places: set<nat>,
      other: string)
    requires Placed(sem, leader, c, r, name, init, places) && other != name
    ensures Holders(r, other) == Holders(c, other)
  {
    hide WithMachine, Holds, Holders;
    forall i | 0 <= i < |c| ensures Holds(r[i], other) <==> Holds(c[i], other) {
      MachineIsNew(sem, c[i], i == leader, name, init);
    }
    SameHolders(c, r, other);
  }

  lemma ApplyInv<S>(sem: Semantics<S>, leader: nat, w: World<S>, name: string, op: string)
    requires Inv(sem, w) && leader < |w.cluster|
    ensures Inv(sem, Advance(sem, leader, w, Apply(name, op)))
    ensures Holds(w.cluster[leader], name) ==>
      Step(sem, leader, w.cluster, Apply(name, op)).1 == Ideal(sem, w.service, Apply(name, op)).1
  {
    hide CountersOk, Written, Holders;
    var c, a := w.cluster, w.service;
    if Holds(c[leader], name) {
      assert RepOk(sem, c[leader], a);
      var (r, o) := Step(sem, leader, c, Apply(name, op));
      var b := a[name := Life(a[name].init, a[name].ops + [op])];
      forall i | 0 <= i < |r| ensures RepOk(sem, r[i], b) {
        WrittenOk(sem, c[i], a, name, op);
      }
      forall other ensures ThreeOrNone(r, b, other) {
        assert ThreeOrNone(c, a, other);
        WrittenEverywhere(sem, c, r, name, op, other);
      }
    }
  }

  lemma WrittenEverywhere<S>(sem: Semantics<S>, c: Cluster<S>, r: Cluster<S>, name: string, op: string, other: string)
    requires |r| == |c|
    requires forall i :: 0 <= i < |c| ==> r[i] == if Holds(c[i], name) then Written(sem, c[i], name, op) else c[i]
    ensures Holders(r, other) == Holders(c, other)
  {
    SameHolders(c, r, other);
  }

  lemma RemoveInv<S>(sem: Semantics<S>, leader: nat, w: World<S>, name: string)
    requires Inv(sem, w) && leader < |w.cluster|
    ensures Inv(sem, Advance(sem, leader, w, Remove(name)))
    ensures Holds(w.cluster[leader], name) ==>
      Step(sem, leader, w.cluster, Remove(name)).1 == Ideal(sem, w.service, Remove(name)).1
  {
    hide CountersOk, Without, Holders;
    var c, a := w.cluster, w.service;
    if Holds(c[leader], name) {
      assert RepOk(sem, c[leader], a);
      var (r, o) := Step(sem, leader, c, Remove(name));
      forall i | 0 <= i < |r| ensures RepOk(sem, r[i], a - {name}) {
        WithoutOk(sem, c[i], a, name);
      }
      forall other ensures ThreeOrNone(r, a - {name}, other) {
        assert ThreeOrNone(c, a, other);
        RemovedEverywhere(c, r, name, other);
      }
    }
  }

  lemma RemovedEverywhere<S>(c: Cluster<S>, r: Cluster<S>, name: string, other: string)
    requires |r| == |c|
    requires forall i :: 0 <= i < |c| ==> r[i] == if Holds(c[i], name) then Without(c[i], name) else c[i]
    ensures Holders(r, other) == if other == name then {} else Holders(c, other)
  {
    if other != name {
      SameHolders(c, r, other);
    }
  }

  /**
   * Over every run, each name is held by no replica or by exactly three, every holder's machine is the initial state
   * with the operations that the leader did not refuse, in order, memUtilization counts the machines, and no request
   * is left in a queue.
   */
  lemma {:induction false} RunInv<S>(sem: Semantics<S>, n: nat, leader: nat, es: seq<Op>)
    requires leader < n && n >= MIN_REPLICAS
    ensures Inv(sem, After(sem, n, leader, es))
  {
    hide Inv, Step, Recorded;
    if es == [] {
      EmptyInv(sem, n);
    } else {
      RunInv(sem, n, leader, es[..|es| - 1]);
      StepInv(sem, leader, After(sem, n, leader, es[..|es| - 1]), es[|es| - 1]);
    }
  }

  lemma EmptyInv<S>(sem: Semantics<S>, n: nat)
    ensures Inv(sem, World(Empty<S>(n), map[]))
  {
    var w := World(Empty<S>(n), map[]);
    forall name ensures ThreeOrNone(w.cluster, w.service, name) {
      assert Holders(w.cluster, name) == {};
    }
  }

  lemma StepInv<S>(sem: Semantics<S>, leader: nat, w: World<S>, e: Op)
    requires Inv(sem, w) && leader < |w.cluster| && |w.cluster| >= MIN_REPLICAS
    ensures Inv(sem, Advance(sem, leader, w, e))
  {
    hide Inv, Step, Recorded;
    match e
    case Create(name, init) => CreateInv(sem, leader, w, name, init);
    case Apply(name, op) => ApplyInv(sem, leader, w, name, op);
    case Remove(name) => RemoveInv(sem, leader, w, name);
  }

  // ---- when the leader answers as a single server would

  /**
   * The answer is that of a single server unless the leader itself lacks a machine that exists: it then refuses the
   * operation, although three other replicas could serve it.
   */
  lemma AnswerIff<S>(sem: Semantics<S>, n: nat, leader: nat, es: seq<Op>, e: Op)
    requires leader < n && n >= MIN_REPLICAS
    ensures
      var w := After(sem, n, leader, es);
      Step(sem, leader, w.cluster, e).1 == Ideal(sem, w.service, e).1
      <==> e.Create? || e.name !in w.service || Holds(w.cluster[leader], e.name)
  {
    hide After, Inv, Rounds, Holders;
    var w := After(sem, n, leader, es);
    RunInv(sem, n, leader, es);
    InvAt(sem, w, leader);
    match e
    case Create(name, init) => CreateInv(sem, leader, w, name, init);
    case Apply(name, op) => ApplyInv(sem, leader, w, name, op);
    case Remove(name) => RemoveInv(sem, leader, w, name);
  }

  lemma InvAt<S>(sem: Semantics<S>, w: World<S>, i: nat)
    requires Inv(sem, w) && i < |w.cluster|
    ensures RepOk(sem, w.cluster[i], w.service)
  {
  }

  /** The whole cluster behaves as a single server in every run. */
  ghost predicate Transparent<S>(sem: Semantics<S>, n: nat, leader: nat)
    requires leader < n
  {
    forall es, e {:trigger AnswersAlike(sem, n, leader, es, e)} :: AnswersAlike(sem, n, leader, es, e)
  }

  ghost predicate AnswersAlike<S>(sem: Semantics<S>, n: nat, leader: nat, es: seq<Op>, e: Op)
    requires leader < n
  {
    var w := After(sem, n, leader, es);
    Step(sem, leader, w.cluster, e).1 == Ideal(sem, w.service, e).1
  }

  // ---- balance

  predicate Balanced<S>(c: Cluster<S>) {
    forall i, j :: 0 <= i < |c| && 0 <= j < |c| ==> c[i].memUtilization <= c[j].memUtilization + 1
  }

  /** Two loads that 16 bits report in the wrong order. */
  ghost predicate Straddles<S>(c: Cluster<S>) {
    exists i, j :: Boundary(c, i, j)
  }

  predicate Boundary<S>(c: Cluster<S>, i: int, j: int) {
    0 <= i < |c| && 0 <= j < |c| && c[i].memUtilization % 0x1_0000 == 0x7FFF
    && c[j].memUtilization == c[i].memUtilization + 1
  }

  lemma Int16Order(x: int, y: int)
    requires y == x + 1
    ensures Int16(y) <= Int16(x) <==> x % 0x1_0000 == 0x7FFF
    ensures Int16(x) <= Int16(y) <==> x % 0x1_0000 != 0x7FFF
  {
  }

  lemma PlacesAndOthers(places: set<nat>, n: nat)
    requires |places| == 3 && forall p :: p in places ==> p < n
    ensures n == 3 ==> forall i: nat :: i < n ==> i in places
    ensures n > 3 ==> exists u: nat :: u < n && u !in places
  {
    BelowElements(n);
    if n == 3 {
      SubsetEqual(places, Below(n));
    } else if forall u: nat :: u < n ==> u in places {
      SubsetSize(Below(n), places);
    }
  }

  lemma SubsetEqual(a: set<nat>, b: set<nat>)
    requires a <= b && |a| == |b|
    ensures a == b
  {
    assert b == a + (b - a);
    assert |b - a| == 0;
  }

  /**
   * A fresh create keeps the loads within one of each other exactly if every replica gets a copy or no two loads lie
   * on both sides of the 16-bit boundary.
   */
  lemma CreateBalancedIff<S>(sem: Semantics<S>, leader: nat, c: Cluster<S>, name: string, init: string)
    requires |c| >= MIN_REPLICAS && Holders(c, name) == {} && Balanced(c)
    ensures Balanced(Rounds(sem, leader, c, name, init, MIN_REPLICAS)) <==> |c| == MIN_REPLICAS || !Straddles(c)
  {
    hide Holders, Rounds, Int16;
    var places := FreshCreate(sem, leader, c, name, init);
    var r := Rounds(sem, leader, c, name, init, MIN_REPLICAS);
    PlacesAndOthers(places, |c|);
    LoadsAfter(sem, leader, c, r, name, init, places);
    if |c| == MIN_REPLICAS {
    } else if Straddles(c) {
      var i, j :| Boundary(c, i, j);
      UnbalancedAfter(c, r, places, i, j);
    } else {
      forall p: nat, u: nat | p in places && p < |c| && u < |c| && u !in places
        ensures c[p].memUtilization <= c[u].memUtilization {
        assert !Boundary(c, u, p);
        if c[p].memUtilization > c[u].memUtilization {
          Int16Order(c[u].memUtilization, c[p].memUtilization);
        }
      }
    }
  }

  lemma LoadsAfter<S>(
      sem: Semantics<S>, leader: nat, c: Cluster<S>, r: Cluster<S>, name: string, init: string, places: set<nat>)
    requires Placed(sem, leader, c, r, name, init, places)
    ensures |r| == |c|
    ensures forall i: nat :: i < |c| ==> r[i].memUtilization == c[i].memUtilization + if i in places then 1 else 0
  {
  }

  lemma UnbalancedAfter<S>(c: Cluster<S>, r: Cluster<S>, places: set<nat>, i: nat, j: nat)
    requires |r| == |c| && |places| == 3 && (forall p :: p in places ==> p < |c|) && |c| > 3
    requires forall k: nat :: k < |c| ==> r[k].memUtilization == c[k].memUtilization + if k in places then 1 else 0
    requires Balanced(c) && LeastLoaded(c, places) && Boundary(c, i, j)
    ensures !Balanced(r)
  {
    hide Int16;
    PlacesAndOthers(places, |c|);
    Int16Order(c[i].memUtilization, c[j].memUtilization);
    var m := c[i].memUtilization;
    var p: nat :| p in places;
    var u: nat :| u < |c| && u !in places;
    var high := if j in places then j else p;
    var low := if i in places then u else i;
    assert forall k :: 0 <= k < |c| ==> c[k].memUtilization == m || c[k].memUtilization == m + 1;
    assert high in places && c[high].memUtilization == m + 1;
    assert low !in places && c[low].memUtilization == m;
    assert r[high].memUtilization == r[low].memUtilization + 2;
  }

  // ---- balance over runs of fresh creates

  ghost predicate FreshCreates(es: seq<Op>) {
    && (forall i :: 0 <= i < |es| ==> es[i].Create?)
    && (forall i, j :: 0 <= i < j < |es| ==> es[i].name != es[j].name)
  }

  function Total<S>(c: Cluster<S>, n: nat): int
    requires n <= |c|
  {
    if n == 0 then 0 else Total(c, n - 1) + c[n - 1].memUtilization
  }

  lemma {:induction false} TotalAtLeast<S>(c: Cluster<S>, n: nat, x: int)
    requires n <= |c| && forall i :: 0 <= i < n ==> c[i].memUtilization >= x
    ensures Total(c, n) >= x * n
    ensures (exists i :: 0 <= i < n && c[i].memUtilization > x) ==> Total(c, n) > x * n
  {
    if n > 0 {
      TotalAtLeast(c, n - 1, x);
      assert x * n == x * (n - 1) + x;
    }
  }

  lemma {:induction false} TotalAtMost<S>(c: Cluster<S>, n: nat, x: int)
    requires n <= |c| && forall i :: 0 <= i < n ==> c[i].memUtilization <= x
    ensures Total(c, n) <= x * n
  {
    if n > 0 {
      TotalAtMost(c, n - 1, x);
      assert x * n == x * (n - 1) + x;
    }
  }

  lemma {:induction false} TotalAfter<S>(c: Cluster<S>, r: Cluster<S>, places: set<nat>, n: nat)
    requires |r| == |c| && n <= |c|
    requires forall k: nat :: k < |c| ==> r[k].memUtilization == c[k].memUtilization + if k in places then 1 else 0
    ensures Total(r, n) == Total(c, n) + |set k | k in places && k < n|
  {
    if n == 0 {
      assert (set k | k in places && k < n) == {};
    } else {
      TotalAfter(c, r, places, n - 1);
      var before := set k | k in places && k < n - 1;
      assert (set k | k in places && k < n) == before + if n - 1 in places then {n - 1} else {};
    }
  }

  lemma {:induction false} EmptyTotal<S>(n: nat, k: nat)
    requires k <= n
    ensures Total(Empty<S>(n), k) == 0
  {
    if k > 0 {
      EmptyTotal<S>(n, k - 1);
    }
  }

  lemma {:induction false} FreshRun<S>(sem: Semantics<S>, n: nat, leader: nat, es: seq<Op>)
    requires leader < n && n >= MIN_REPLICAS && FreshCreates(es)
    ensures Total(After(sem, n, leader, es).cluster, n) == 3 * |es|
    ensures forall name :: name in After(sem, n, leader, es).service <==> exists i :: 0 <= i < |es| && es[i].name == name
    ensures |After(sem, n, leader, es).service| == |es|
  {
    hide After, Total, FreshCreates, Inv;
    if es == [] {
      NothingYet(sem, n, leader);
      EmptyTotal<S>(n, n);
    } else {
      var before, e := es[..|es| - 1], es[|es| - 1];
      FreshPrefix(es, |es| - 1);
      FreshRun(sem, n, leader, before);
      RunInv(sem, n, leader, before);
      assert es == before + [e];
      FreshStep(sem, n, leader, before, e);
    }
  }

  lemma FreshPrefix(es: seq<Op>, k: nat)
    requires FreshCreates(es) && k < |es|
    ensures FreshCreates(es[..k]) && es[k].Create? && forall i :: 0 <= i < k ==> es[..k][i].name != es[k].name
  {
  }

  lemma NothingYet<S>(sem: Semantics<S>, n: nat, leader: nat)
    requires leader < n
    ensures After(sem, n, leader, []) == World(Empty<S>(n), map[])
  {
  }

  lemma FreshStep<S>(sem: Semantics<S>, n: nat, leader: nat, before: seq<Op>, e: Op)
    requires leader < n && n >= MIN_REPLICAS && e.Create? && forall i :: 0 <= i < |before| ==> before[i].name != e.name
    requires
      var w := After(sem, n, leader, before);
      && Inv(sem, w)
      && forall name :: name in w.service <==> exists i :: 0 <= i < |before| && before[i].name == name
    ensures
      var w, r, es := After(sem, n, leader, before), After(sem, n, leader, before + [e]), before + [e];
      && Total(r.cluster, n) == Total(w.cluster, n) + 3
      && |r.service| == |w.service| + 1
      && forall name :: name in r.service <==> exists i :: 0 <= i < |es| && es[i].name == name
  {
    hide After, Inv, Total, Advance, Rounds;
    var w := After(sem, n, leader, before);
    NextWorld(sem, n, leader, before, e);
    CreateTotal(sem, leader, w, e.name, e.init);
    FreshNames(before, e, w.service, w.service[e.name := Life(e.init, [])]);
  }

  lemma NextWorld<S>(sem: Semantics<S>, n: nat, leader: nat, before: seq<Op>, e: Op)
    requires leader < n
    ensures After(sem, n, leader, before + [e]) == Advance(sem, leader, After(sem, n, leader, before), e)
  {
    hide Advance;
    assert (before + [e])[..|before|] == before;
  }

  lemma FreshNames(before: seq<Op>, e: Op, a: Service, b: Service)
    requires forall name :: name in a <==> exists i :: 0 <= i < |before| && before[i].name == name
    requires e.name !in a && e.Create? && b == a[e.name := Life(e.init, [])]
    ensures forall name :: name in b <==> exists i :: 0 <= i < |before + [e]| && (before + [e])[i].name == name
    ensures |b| == |a| + 1
  {
    var es := before + [e];
    assert es[|before|].name == e.name;
    forall name | name in a ensures exists i :: 0 <= i < |es| && es[i].name == name {
      var i :| 0 <= i < |before| && before[i].name == name;
      assert es[i].name == name;
    }
  }

  lemma CreateTotal<S>(sem: Semantics<S>, leader: nat, w: World<S>, name: string, init: string)
    requires Inv(sem, w) && leader < |w.cluster| && |w.cluster| >= MIN_REPLICAS && name !in w.service
    ensures
      var r := Advance(sem, leader, w, Create(name, init));
      && Holders(w.cluster, name) == {}
      && r == World(Rounds(sem, leader, w.cluster, name, init, MIN_REPLICAS), w.service[name := Life(init, [])])
      && Total(r.cluster, |r.cluster|) == Total(w.cluster, |w.cluster|) + 3
  {
    hide Holders, WithMachine, RepOk, Rounds;
    var c := w.cluster;
    assert ThreeOrNone(c, w.service, name);
    var places := FreshCreate(sem, leader, c, name, init);
    var r := Rounds(sem, leader, c, name, init, MIN_REPLICAS);
    LoadsAfter(sem, leader, c, r, name, init, places);
    TotalAfter(c, r, places, |c|);
    assert (set k | k in places && k < |c|) == places;
  }

  /** Balanced loads lie on both sides of the boundary exactly if their total does. */
  lemma StraddleNeedsTotal<S>(c: Cluster<S>)
    requires Balanced(c) && (forall i :: 0 <= i < |c| ==> c[i].memUtilization >= 0) && Straddles(c)
    ensures Total(c, |c|) > 0x7FFF * |c|
  {
    hide Total;
    var i, j :| Boundary(c, i, j);
    var m := c[i].memUtilization;
    assert forall k :: 0 <= k < |c| ==> c[k].memUtilization >= 0x7FFF;
    TotalAtLeast(c, |c|, 0x7FFF);
  }

  lemma TotalStraddles<S>(c: Cluster<S>)
    requires Balanced(c) && 0x7FFF * |c| < Total(c, |c|) < 0x8000 * |c|
    ensures Straddles(c)
  {
    var i := SomeAtMost(c, 0x7FFF);
    var j := SomeAtLeast(c, 0x8000);
    assert Boundary(c, i, j);
  }

  lemma SomeAtMost<S>(c: Cluster<S>, x: int) returns (i: nat)
    requires Total(c, |c|) < (x + 1) * |c|
    ensures i < |c| && c[i].memUtilization <= x
  {
    if forall k :: 0 <= k < |c| ==> c[k].memUtilization >= x + 1 {
      TotalAtLeast(c, |c|, x + 1);
    }
    i :| i < |c| && c[i].memUtilization <= x;
  }

  lemma SomeAtLeast<S>(c: Cluster<S>, x: int) returns (i: nat)
    requires Total(c, |c|) > (x - 1) * |c|
    ensures i < |c| && c[i].memUtilization >= x
  {
    if forall k :: 0 <= k < |c| ==> c[k].memUtilization <= x - 1 {
      TotalAtMost(c, |c|, x - 1);
    }
    i :| i < |c| && c[i].memUtilization >= x;
  }

  /** The loads are balanced after each of the first creates of a run. */
  ghost predicate BalancedThroughout<S>(sem: Semantics<S>, n: nat, leader: nat, es: seq<Op>)
    requires leader < n
  {
    forall k :: 0 <= k <= |es| ==> Balanced(After(sem, n, leader, es[..k]).cluster)
  }

  /** One more fresh create. */
  lemma NextCreate<S>(sem: Semantics<S>, n: nat, leader: nat, es: seq<Op>, k: nat)
    requires leader < n && n >= MIN_REPLICAS && FreshCreates(es) && k < |es|
    ensures
      var c := After(sem, n, leader, es[..k]).cluster;
      && Total(c, n) == 3 * k && (forall i :: 0 <= i < |c| ==> c[i].memUtilization >= 0)
      && (Balanced(c) ==>
           (Balanced(After(sem, n, leader, es[..k + 1]).cluster) <==> n == MIN_REPLICAS || !Straddles(c)))
  {
    hide Rounds, Holders, Total, After, FreshCreates, Agrees, Balanced, Straddles;
    var before, e := es[..k], es[k];
    var w := After(sem, n, leader, before);
    FreshPrefix(es, k);
    FreshRun(sem, n, leader, before);
    RunInv(sem, n, leader, before);
    assert es[..k + 1] == before + [e];
    NextWorld(sem, n, leader, before, e);
    CreateTotal(sem, leader, w, e.name, e.init);
    assert forall i :: 0 <= i < n ==> RepOk(sem, w.cluster[i], w.service);
    if Balanced(w.cluster) {
      CreateBalancedIff(sem, leader, w.cluster, e.name, e.init);
    }
  }

  /**
   * Fresh creates from empty stay balanced for any length of run on three replicas, and on more of them exactly until
   * a load has to pass the largest 16-bit number.
   */
  lemma BalancedIff<S>(sem: Semantics<S>, n: nat, leader: nat, es: seq<Op>)
    requires leader < n && n >= MIN_REPLICAS && FreshCreates(es)
    ensures BalancedThroughout(sem, n, leader, es) <==> n == MIN_REPLICAS || 3 * (|es| - 1) <= 0x7FFF * n
  {
    hide After, Total, Balanced, FreshCreates, Straddles;
    if n == MIN_REPLICAS || 3 * (|es| - 1) <= 0x7FFF * n {
      forall k: nat | k <= |es| ensures Balanced(After(sem, n, leader, es[..k]).cluster) {
        BalancedUpTo(sem, n, leader, es, k);
      }
    } else {
      var k := 0x7FFF * n / 3 + 1;
      assert 0x7FFF * n < 3 * k <= 0x7FFF * n + 3 && k < |es|;
      NextCreate(sem, n, leader, es, k);
      if Balanced(After(sem, n, leader, es[..k]).cluster) {
        TotalStraddles(After(sem, n, leader, es[..k]).cluster);
      }
    }
  }

  lemma {:induction false} BalancedUpTo<S>(sem: Semantics<S>, n: nat, leader: nat, es: seq<Op>, k: nat)
    requires leader < n && n >= MIN_REPLICAS && FreshCreates(es) && k <= |es|
    requires n == MIN_REPLICAS || 3 * (|es| - 1) <= 0x7FFF * n
    ensures Balanced(After(sem, n, leader, es[..k]).cluster)
  {
    hide Total, FreshCreates, Straddles, After, Balanced;
    if k == 0 {
      EmptyBalanced(sem, n, leader);
    } else {
      BalancedUpTo(sem, n, leader, es, k - 1);
      NextCreate(sem, n, leader, es, k - 1);
      var c := After(sem, n, leader, es[..k - 1]).cluster;
      if Straddles(c) {
        StraddleNeedsTotal(c);
      }
    }
  }

  lemma EmptyBalanced<S>(sem: Semantics<S>, n: nat, leader: nat)
    requires leader < n
    ensures Balanced(After(sem, n, leader, []).cluster)
  {
  }

  // ---- the cluster is a single server exactly if it has three replicas

  /** `k` distinct names. */
  function ManyCreates(k: nat): seq<Op> {
    seq(k, (i: nat) => Create(seq(i, _ => 'x'), ""))
  }

  lemma ManyAreFresh(k: nat)
    ensures FreshCreates(ManyCreates(k))
  {
    var es := ManyCreates(k);
    forall i, j | 0 <= i < j < k ensures es[i].name != es[j].name {
      assert |es[i].name| == i && |es[j].name| == j;
    }
  }

  /** With more than three replicas, some run ends with a machine that the leader lacks. */
  lemma LeaderLacks<S>(sem: Semantics<S>, n: nat, leader: nat) returns (es: seq<Op>, name: string)
    requires leader < n && n > MIN_REPLICAS
    ensures var w := After(sem, n, leader, es); name in w.service && !Holds(w.cluster[leader], name)
  {
    hide After, Total, FreshCreates, BalancedThroughout, ManyCreates;
    es := ManyCreates(2 * n);
    ManyAreFresh(2 * n);
    assert |es| == 2 * n by {
      ManyLength(2 * n);
    }
    BalancedIff(sem, n, leader, es);
    FreshRun(sem, n, leader, es);
    RunInv(sem, n, leader, es);
    var w := After(sem, n, leader, es);
    LastOfBalanced(sem, n, leader, es);
    assert Total(w.cluster, n) < 7 * n;
    var i := SomeAtMost(w.cluster, 6);
    assert Balanced(w.cluster);
    var r := w.cluster[leader];
    assert RepOk(sem, r, w.service) && |r.machines| <= 7;
    assert |w.service.Keys| == |w.service| && |r.machines.Keys| == |r.machines|;
    if forall x :: x in w.service ==> x in r.machines {
      assert w.service.Keys <= r.machines.Keys;
      SubsetSize(w.service.Keys, r.machines.Keys);
    }
    name :| name in w.service && name !in r.machines;
  }

  lemma ManyLength(k: nat)
    ensures |ManyCreates(k)| == k
  {
  }

  lemma LastOfBalanced<S>(sem: Semantics<S>, n: nat, leader: nat, es: seq<Op>)
    requires leader < n && BalancedThroughout(sem, n, leader, es)
    ensures Balanced(After(sem, n, leader, es).cluster)
  {
    assert es[..|es|] == es;
  }

  lemma TransparentIff<S>(sem: Semantics<S>, n: nat, leader: nat)
    requires leader < n && n >= MIN_REPLICAS
    ensures Transparent(sem, n, leader) <==> n == MIN_REPLICAS
  {
    hide After, Holds, Ideal, Step;
    if n == MIN_REPLICAS {
      forall es, e ensures AnswersAlike(sem, n, leader, es, e) {
        AnswerIff(sem, n, leader, es, e);
        AllHold(sem, leader, es, e.name);
      }
    } else {
      var es, name := LeaderLacks(sem, n, leader);
      AnswerIff(sem, n, leader, es, Apply(name, ""));
      assert !AnswersAlike(sem, n, leader, es, Apply(name, ""));
    }
  }

  lemma AllHold<S>(sem: Semantics<S>, leader: nat, es: seq<Op>, name: string)
    requires leader < MIN_REPLICAS
    ensures var w := After(sem, MIN_REPLICAS, leader, es); name in w.service ==> Holds(w.cluster[leader], name)
  {
    hide After, Holds, RepOk;
    var w := After(sem, MIN_REPLICAS, leader, es);
    RunInv(sem, MIN_REPLICAS, leader, es);
    assert ThreeOrNone(w.cluster, w.service, name);
    if name in w.service {
      HoldersHold(w.cluster, name);
      PlacesAndOthers(Holders(w.cluster, name), MIN_REPLICAS);
    }
  }
}

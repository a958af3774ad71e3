/** The replica handler as objects: every handler is proved to make the step that `Placement` describes. */
module ReplicaHandler {
  import opened Placement

  class Replica<S> {
    const id: nat
    const sem: Semantics<S>
    var machines: map<string, S>
    var requestQueue: map<string, seq<Request>>
    var queueLen: int
    var bwUtilization: int
    var memUtilization: int

    function View(): Rep<S>
      reads this
    {
      Rep(machines, requestQueue, queueLen, bwUtilization, memUtilization)
    }

    constructor (id: nat, sem: Semantics<S>)
      ensures this.id == id && this.sem == sem && View() == EmptyRep()
    {
      this.id, this.sem := id, sem;
      machines, requestQueue := map[], map[];
      queueLen, bwUtilization, memUtilization := 0, 0, 0;
    }

    method StateExists(name: string) returns (exists_: bool)
      ensures exists_ == Holds(View(), name)
    {
      exists_ := name in machines;
    }

    method GetMemUtilization() returns (m: int)
      ensures m == Reported(View())
    {
      m := Int16(memUtilization);
    }

    /** The copy that a leader makes for itself. */
    method CreateOwn(name: string, initialState: string)
      modifies this
      ensures View() == WithMachine(sem, old(View()), true, name, initialState)
    {
      queueLen := queueLen + 1;
      memUtilization := memUtilization + 1;
      machines := machines[name := sem.make(initialState)];
      queueLen := queueLen - 1;
    }

    /** `create` at a replica that is not the leader. */
    method Create(name: string, initialState: string) returns (o: Outcome)
      modifies this
      ensures o == if old(Holds(View(), name)) then AlreadyExists else Done("")
      ensures View()
        == if old(Holds(View(), name)) then old(View()) else WithMachine(sem, old(View()), false, name, initialState)
    {
      if name in machines {
        return AlreadyExists;
      }
      queueLen := queueLen + 1;
      memUtilization := memUtilization + 1;
      machines := machines[name := sem.make(initialState)];
      queueLen := queueLen - 1;
      if name !in requestQueue {
        requestQueue := requestQueue[name := []];
      }
      return Done("");
    }

    /** Nothing waits in the queue of `name`, so a write does not block. */
    predicate Idle(name: string)
      reads this
    {
      name in requestQueue ==> requestQueue[name] == []
    }

    /** Enqueues a write and waits until it is at the head, which it is at once. */
    method Enqueue(name: string, operation: string)
      requires Idle(name)
      modifies this
      ensures View() == old(View()).(requestQueue := old(requestQueue)[name := [Request(Write, operation)]])
    {
      var p := Request(Write, operation);
      if name !in requestQueue {
        requestQueue := requestQueue[name := []];
      }
      assert requestQueue[name] + [p] == [p];
      requestQueue := requestQueue[name := requestQueue[name] + [p]];
      assert requestQueue[name][0] == p;
      assert requestQueue == old(requestQueue)[name := [p]];
    }

    /** Serves the write at the head of the queue. */
    method Serve(name: string, operation: string) returns (result: string)
      requires name in machines && name in requestQueue && |requestQueue[name]| == 1
      modifies this
      ensures View() == old(View()).(machines := old(machines)[name := sem.step(old(machines)[name], operation).0],
        bwUtilization := old(bwUtilization) + 1, requestQueue := old(requestQueue)[name := []])
      ensures result == sem.step(old(machines)[name], operation).1
    {
      queueLen := queueLen + 1;
      bwUtilization := bwUtilization + 1;
      var next := sem.step(machines[name], operation);
      machines := machines[name := next.0];
      result := next.1;
      queueLen := queueLen - 1;
      assert requestQueue[name][1..] == [];
      requestQueue := requestQueue[name := requestQueue[name][1..]];
    }

    /** `apply` at a replica that is not the leader. */
    method Apply(name: string, operation: string) returns (o: Outcome)
      requires Idle(name)
      modifies this
      ensures o == if old(Holds(View(), name)) then Done(sem.step(old(machines)[name], operation).1) else NotFound
      ensures View() == if old(Holds(View(), name)) then Written(sem, old(View()), name, operation) else old(View())
    {
      if name !in machines {
        return NotFound;
      }
      Enqueue(name, operation);
      var result := Serve(name, operation);
      return Done(result);
    }

    /** `remove` at a replica that is not the leader. */
    method Remove(name: string) returns (o: Outcome)
      modifies this
      ensures o == if old(Holds(View(), name)) then Done("") else NotFound
      ensures View() == if old(Holds(View(), name)) then Without(old(View()), name) else old(View())
    {
      if name !in machines {
        return NotFound;
      }
      queueLen := queueLen + 1;
      memUtilization := memUtilization - 1;
      machines := machines - {name};
      queueLen := queueLen - 1;
      requestQueue := requestQueue - {name};
      return Done("");
    }
  }

  /** The leader's side of the handlers: its own replica and the proxies through which it calls all of them. */
  class Leader<S> {
    const id: nat
    const sem: Semantics<S>
    const replicas: seq<Replica<S>>

    ghost predicate Valid() {
      && id < |replicas| && |replicas| >= MIN_REPLICAS
      && (forall i :: 0 <= i < |replicas| ==> replicas[i].sem == sem)
      && (forall i, j :: 0 <= i < j < |replicas| ==> replicas[i] != replicas[j])
    }

    ghost function View(): (c: Cluster<S>)
      reads replicas
      ensures |c| == |replicas| && forall i :: 0 <= i < |c| ==> c[i] == replicas[i].View()
    {
      seq(|replicas|, i requires 0 <= i < |replicas| reads replicas => replicas[i].View())
    }

    constructor (id: nat, sem: Semantics<S>, replicas: seq<Replica<S>>)
      ensures this.id == id && this.sem == sem && this.replicas == replicas
    {
      this.id, this.sem, this.replicas := id, sem, replicas;
    }

    /** The loop over all replicas: how many have the machine, and the least loaded one that has not. */
    method Survey(name: string) returns (mmi: int, count: nat)
      ensures mmi == Choice(View(), name, |replicas|) && count == |Holders(View(), name)|
    {
      hide Holds, Reported;
      ghost var c := View();
      var mm := 0x7FFF_FFFF;
      mmi, count := -1, 0;
      for i := 0 to |replicas|
        invariant mmi == Choice(c, name, i) && count == |HoldersUpTo(c, name, i)|
        invariant mm == if mmi < 0 then 0x7FFF_FFFF else Reported(c[mmi])
      {
        HoldersNext(c, name, i);
        ReportedRange(c[i]);
        var has := replicas[i].StateExists(name);
        if !has {
          var m := replicas[i].GetMemUtilization();
          if m < mm {
            mmi, mm := i, m;
          }
        } else {
          count := count + 1;
        }
      }
    }

    method PlaceAt(m: nat, name: string, initialState: string)
      requires Valid() && m < |replicas| && !Holds(View()[m], name)
      modifies replicas
      ensures View() == Place(sem, id, old(View()), name, initialState, m)
    {
      hide WithMachine;
      if m == id {
        replicas[m].CreateOwn(name, initialState);
      } else {
        var o := replicas[m].Create(name, initialState);
      }
    }

    method Create(name: string, initialState: string) returns (o: Outcome)
      requires Valid()
      modifies replicas
      ensures (View(), o) == Step(sem, id, old(View()), Op.Create(name, initialState))
    {
      hide Place, Choice, HoldersUpTo, Holds, Round;
      ghost var c := View();
      var preexisting := true;
      var j := 0;
      while j < MIN_REPLICAS
        invariant 0 <= j <= MIN_REPLICAS
        invariant View() == Rounds(sem, id, c, name, initialState, j)
        invariant preexisting <==> j == 0 || Holders(c, name) != {}
      {
        var mmi, count := Survey(name);
        ghost var before := View();
        CopiesSoFar(sem, id, c, name, initialState, j);
        if count == 0 {
          preexisting := false;
        }
        if count < MIN_REPLICAS {
          RoundPlacesChoice(sem, id, before, name, initialState);
          PlaceAt(mmi, name, initialState);
        } else {
          FullCreate(sem, id, before, name, initialState, MIN_REPLICAS - j);
          RoundsAdd(sem, id, c, name, initialState, j, MIN_REPLICAS - j);
          break;
        }
        j := j + 1;
      }
      o := if preexisting then AlreadyExists else Done("");
    }

    lemma OthersIdle(name: string)
      requires forall r :: r in replicas ==> r.Idle(name)
      ensures forall k :: 0 <= k < |replicas| ==> replicas[k].Idle(name)
    {
    }

    /** `apply` at the leader: refused if it lacks the machine, otherwise done everywhere, here last. */
    method Apply(name: string, operation: string) returns (o: Outcome)
      requires Valid() && forall r :: r in replicas ==> r.Idle(name)
      modifies replicas
      ensures (View(), o) == Step(sem, id, old(View()), Op.Apply(name, operation))
    {
      hide Written;
      var own := replicas[id];
      if name !in own.machines {
        return NotFound;
      }
      OthersIdle(name);
      own.Enqueue(name, operation);
      ghost var pending := own.View();
      for i := 0 to |replicas|
        invariant own.View() == pending
        invariant forall k :: i <= k < |replicas| && k != id ==>
          replicas[k].Idle(name) && replicas[k].View() == old(replicas[k].View())
        invariant forall k :: 0 <= k < i && k != id ==>
          replicas[k].View() == AfterWrite(sem, old(replicas[k].View()), name, operation)
      {
        if i != id {
          assert replicas[i].Idle(name);
          var rslt := replicas[i].Apply(name, operation);
        }
      }
      assert own.View() == pending && own.requestQueue[name] == [Request(Write, operation)];
      var result := own.Serve(name, operation);
      OwnWrite(sem, old(own.View()), own.View(), pending, name, operation);
      forall k | 0 <= k < |replicas| ensures View()[k] == AfterWrite(sem, old(View())[k], name, operation) {
        assert old(View())[k] == old(replicas[k].View());
      }
      WriteIsStep(sem, id, old(View()), View(), name, operation);
      return Done(result);
    }

    /** `remove` at the leader: its own copy first, then every other. */
    method Remove(name: string) returns (o: Outcome)
      requires Valid()
      modifies replicas
      ensures (View(), o) == Step(sem, id, old(View()), Op.Remove(name))
    {
      hide Without;
      var own := replicas[id];
      o := own.Remove(name);
      if o.NotFound? {
        assert View() == old(View());
        return;
      }
      for i := 0 to |replicas|
        invariant own.View() == Without(old(own.View()), name)
        invariant forall k :: i <= k < |replicas| && k != id ==> replicas[k].View() == old(replicas[k].View())
        invariant forall k :: 0 <= k < i && k != id ==>
          replicas[k].View() == AfterRemoval(old(replicas[k].View()), name)
      {
        if i != id {
          var ignored := replicas[i].Remove(name);
        }
      }
      forall k | 0 <= k < |replicas| ensures View()[k] == AfterRemoval(old(View())[k], name) {
        assert old(View())[k] == old(replicas[k].View());
      }
      RemovalIsStep(sem, id, old(View()), View(), name);
    }
  }

  function AfterWrite<S>(sem: Semantics<S>, r: Rep<S>, name: string, op: string): Rep<S> {
    if Holds(r, name) then Written(sem, r, name, op) else r
  }

  function AfterRemoval<S>(r: Rep<S>, name: string): Rep<S> {
    if Holds(r, name) then Without(r, name) else r
  }

  lemma WriteIsStep<S>(sem: Semantics<S>, id: nat, c: Cluster<S>, r: Cluster<S>, name: string, op: string)
    requires |r| == |c| && id < |c| && Holds(c[id], name)
    requires forall k :: 0 <= k < |c| ==> r[k] == AfterWrite(sem, c[k], name, op)
    ensures Step(sem, id, c, Op.Apply(name, op)) == (r, Done(sem.step(c[id].machines[name], op).1))
  {
    hide Written;
    assert Step(sem, id, c, Op.Apply(name, op)).0 == r;
  }

  lemma RemovalIsStep<S>(sem: Semantics<S>, id: nat, c: Cluster<S>, r: Cluster<S>, name: string)
    requires |r| == |c| && id < |c| && Holds(c[id], name)
    requires forall k :: 0 <= k < |c| ==> r[k] == AfterRemoval(c[k], name)
    ensures Step(sem, id, c, Op.Remove(name)) == (r, Done(""))
  {
    hide Without;
    assert Step(sem, id, c, Op.Remove(name)).0 == r;
  }

  lemma OwnWrite<S>(sem: Semantics<S>, before: Rep<S>, after: Rep<S>, pending: Rep<S>, name: string, op: string)
    requires Holds(before, name)
    requires pending == before.(requestQueue := before.requestQueue[name := [Request(Write, op)]])
    requires after == pending.(machines := pending.machines[name := sem.step(pending.machines[name], op).0],
      bwUtilization := pending.bwUtilization + 1, requestQueue := pending.requestQueue[name := []])
    ensures after == Written(sem, before, name, op)
  {
  }

  lemma RoundPlacesChoice<S>(sem: Semantics<S>, id: nat, c: Cluster<S>, name: string, init: string)
    requires |c| >= MIN_REPLICAS && |Holders(c, name)| < MIN_REPLICAS
    ensures
      var m := Choice(c, name, |c|);
      m >= 0 && !Holds(c[m], name) && Round(sem, id, c, name, init) == Place(sem, id, c, name, init, m)
  {
    hide Place, HoldersUpTo, Holds, Choice;
    ChoiceIsLeast(c, name, |c|);
    HoldersBound(c, name, |c|);
  }

  lemma ReportedRange<S>(r: Rep<S>)
    ensures Reported(r) < 0x7FFF_FFFF
  {
  }

  /** After the first round a name has a holder. */
  lemma {:induction false} CopiesSoFar<S>(sem: Semantics<S>, id: nat, c: Cluster<S>, name: string, init: string, j: nat)
    requires |c| >= MIN_REPLICAS
    ensures Holders(Rounds(sem, id, c, name, init, j), name) == {} <==> j == 0 && Holders(c, name) == {}
  {
    hide Holders, Round;
    if j > 0 {
      CopiesSoFar(sem, id, c, name, init, j - 1);
      RoundLeavesOne(sem, id, Rounds(sem, id, c, name, init, j - 1), name, init);
    }
  }

  lemma RoundLeavesOne<S>(sem: Semantics<S>, id: nat, c: Cluster<S>, name: string, init: string)
    requires |c| >= MIN_REPLICAS
    ensures Holders(Round(sem, id, c, name, init), name) != {}
  {
    hide Holders, Place, Choice;
    if |Holders(c, name)| < MIN_REPLICAS {
      var m := RoundPlaces(sem, id, c, name, init);
    }
  }

  lemma {:induction false} RoundsAdd<S>(
      sem: Semantics<S>, id: nat, c: Cluster<S>, name: string, init: string, a: nat, b: nat)
    ensures Rounds(sem, id, c, name, init, a + b) == Rounds(sem, id, Rounds(sem, id, c, name, init, a), name, init, b)
  {
    hide Round;
    if b > 0 {
      RoundsAdd(sem, id, c, name, init, a, b - 1);
    }
  }
}

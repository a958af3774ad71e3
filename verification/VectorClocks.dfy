/** Vector timestamps (MP1/timestamp): the laws of step, update and compare, and the class that runs them. */
module VectorClocks {
  import opened Ordering

  /** Process ids are UDP port numbers. */
  type Id = nat

  /** A vector clock. A key that is absent reads as 0, as `operator[]` of the C++ map does. */
  type Clock = map<Id, int>

  datatype CausalityRelation = BEFORE | CONCURRENT | AFTER

  function Get(m: map<Id, int>, k: Id): int {
    if k in m then m[k] else 0
  }

  function Zero(group: set<Id>): Clock {
    map k | k in group :: 0
  }

  function Step(c: Clock, own: Id): Clock {
    c[own := Get(c, own) + 1]
  }

  /** `c` brought up to date with `t`; the own entry is never overwritten. */
  function Update(c: Clock, t: Clock, own: Id): Clock {
    map k | k in c :: if k != own && c[k] < Get(t, k) then Get(t, k) else c[k]
  }

  /** How far `t` is ahead of `c`, entry by entry. */
  function Diff(c: Clock, t: Clock): map<Id, int> {
    map k | k in c :: Get(t, k) - c[k]
  }

  ghost predicate SomeLess(a: Clock, b: Clock) {
    exists k :: k in a && a[k] < Get(b, k)
  }

  ghost predicate SomeGreater(a: Clock, b: Clock) {
    exists k :: k in a && a[k] > Get(b, k)
  }

  /** The causality relation by definition: pointwise comparison over the keys of `a`. */
  ghost function Relation(a: Clock, b: Clock): CausalityRelation {
    if SomeLess(a, b) && !SomeGreater(a, b) then BEFORE
    else if SomeGreater(a, b) && !SomeLess(a, b) then AFTER
    else CONCURRENT
  }

  class Timestamp {
    const ownId: Id
    var timestamp: Clock
    var diff: map<Id, int>

    constructor (ownId: Id, memberIds: seq<Id>)
      ensures this.ownId == ownId && diff == map[]
      ensures timestamp == Zero(set k | k in memberIds)
    {
      this.ownId := ownId;
      this.diff := map[];
      new;
      var ts: Clock := map[];
      for i := 0 to |memberIds|
        invariant ts == Zero(set k | k in memberIds[..i])
      {
        ts := ts[memberIds[i] := 0];
        assert memberIds[..i + 1] == memberIds[..i] + [memberIds[i]];
      }
      assert memberIds[..|memberIds|] == memberIds;
      timestamp := ts;
    }

    method StepOwn()
      modifies this`timestamp
      ensures timestamp == Step(old(timestamp), ownId)
    {
      timestamp := timestamp[ownId := Get(timestamp, ownId) + 1];
    }

    /** The counting loop with its early exits. */
    method Compare(t: Timestamp) returns (r: CausalityRelation)
      ensures r == Relation(timestamp, t.timestamp)
    {
      var numLess, numGreater := 0, 0;
      var keys := Listing(timestamp.Keys);
      for i := 0 to |keys|
        invariant numLess >= 0 && numGreater >= 0 && !(numLess > 0 && numGreater > 0)
        invariant numLess > 0 <==> exists j :: 0 <= j < i && timestamp[keys[j]] < Get(t.timestamp, keys[j])
        invariant numGreater > 0 <==> exists j :: 0 <= j < i && timestamp[keys[j]] > Get(t.timestamp, keys[j])
      {
        var k := keys[i];
        if timestamp[k] < Get(t.timestamp, k) {
          numLess := numLess + 1;
          if numGreater > 0 {
            return CONCURRENT;
          }
        } else if timestamp[k] > Get(t.timestamp, k) {
          numGreater := numGreater + 1;
          if numLess > 0 {
            return CONCURRENT;
          }
        }
      }
      if numLess > 0 {
        return BEFORE;
      } else if numGreater > 0 {
        return AFTER;
      } else {
        return CONCURRENT;
      }
    }

    /** One turn of the update loop: entry `k` meets the other clock's entry `theirs`. */
    method UpdateEntry(k: Id, theirs: int)
      requires k in timestamp
      modifies this
      ensures timestamp == old(timestamp)[k := if k != ownId && old(timestamp)[k] < theirs then theirs else old(timestamp)[k]]
      ensures diff == old(diff)[k := theirs - old(timestamp)[k]]
    {
      diff := diff[k := theirs - timestamp[k]];
      if k != ownId && timestamp[k] < theirs {
        timestamp := timestamp[k := theirs];
      }
    }

    method UpdateFrom(t: Clock)
      modifies this
      ensures timestamp == Update(old(timestamp), t, ownId)
      ensures diff == old(diff) + Diff(old(timestamp), t)
    {
      hide Update, Diff, Overwritten;
      ghost var was, wasDiff := timestamp, diff;
      ghost var news, deltas := Update(timestamp, t, ownId), Diff(timestamp, t);
      UpdateKeys(was, t, ownId);
      var keys := Listing(timestamp.Keys);
      NothingOverwritten(was, news);
      NothingOverwritten(wasDiff, deltas);
      for i := 0 to |keys|
        invariant timestamp == Overwritten(was, news, keys[..i])
        invariant diff == Overwritten(wasDiff, deltas, keys[..i])
      {
        var k := keys[i];
        UpdateAt(was, t, ownId, k);
        OverwriteNext(was, news, keys, i);
        OverwriteNext(wasDiff, deltas, keys, i);
        UpdateEntry(k, Get(t, k));
      }
      OverwriteAll(was, news, keys);
      OverwriteAll(wasDiff, deltas, keys);
    }
  }

  lemma UpdateKeys(c: Clock, t: Clock, own: Id)
    ensures Update(c, t, own).Keys == c.Keys && Diff(c, t).Keys == c.Keys
  {
  }

  lemma UpdateAt(c: Clock, t: Clock, own: Id, k: Id)
    requires k in c
    ensures Get(Update(c, t, own), k) == if k != own && c[k] < Get(t, k) then Get(t, k) else c[k]
    ensures Get(Diff(c, t), k) == Get(t, k) - c[k]
  {
  }

  lemma NothingOverwritten(m: map<Id, int>, n: map<Id, int>)
    ensures Overwritten(m, n, []) == m
  {
  }

  /** `m` after the entries listed in `keys` have been assigned from `n`, in that order. */
  ghost function Overwritten(m: map<Id, int>, n: map<Id, int>, keys: seq<Id>): map<Id, int> {
    if keys == [] then m
    else
      var k := keys[|keys| - 1];
      Overwritten(m, n, keys[..|keys| - 1])[k := Get(n, k)]
  }

  lemma {:induction false} OverwrittenAt(m: map<Id, int>, n: map<Id, int>, keys: seq<Id>, k: Id)
    ensures k in Overwritten(m, n, keys) <==> k in m || k in keys
    ensures k in keys ==> Overwritten(m, n, keys)[k] == Get(n, k)
    ensures k in m && k !in keys ==> Overwritten(m, n, keys)[k] == m[k]
  {
    if keys != [] {
      OverwrittenAt(m, n, keys[..|keys| - 1], k);
      assert keys == keys[..|keys| - 1] + [keys[|keys| - 1]];
    }
  }

  lemma OverwriteNext(m: map<Id, int>, n: map<Id, int>, keys: seq<Id>, i: nat)
    requires i < |keys| && forall j :: 0 <= j < i ==> keys[j] != keys[i]
    ensures Overwritten(m, n, keys[..i + 1]) == Overwritten(m, n, keys[..i])[keys[i] := Get(n, keys[i])]
    ensures keys[i] in m ==> keys[i] in Overwritten(m, n, keys[..i]) && Overwritten(m, n, keys[..i])[keys[i]] == m[keys[i]]
    ensures keys[i] in m && Get(n, keys[i]) == m[keys[i]] ==>
      Overwritten(m, n, keys[..i + 1]) == Overwritten(m, n, keys[..i])
  {
    assert keys[..i + 1][..i] == keys[..i];
    assert keys[i] !in keys[..i];
    OverwrittenAt(m, n, keys[..i], keys[i]);
  }

  lemma OverwriteAll(m: map<Id, int>, n: map<Id, int>, keys: seq<Id>)
    requires Lists(keys, n.Keys)
    ensures Overwritten(m, n, keys[..|keys|]) == m + n
    ensures m.Keys == n.Keys ==> m + n == n
  {
    assert keys[..|keys|] == keys;
    forall k ensures k in Overwritten(m, n, keys) <==> k in m + n
             ensures k in m + n ==> Overwritten(m, n, keys)[k] == (m + n)[k] {
      OverwrittenAt(m, n, keys, k);
    }
  }
}

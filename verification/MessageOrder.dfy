/** The order on messages of MP1/message: timestamps first, sender ids between concurrent messages. */
module MessageOrder {
  import opened VectorClocks
  import opened Handlers

  ghost predicate Less(a: Message, b: Message) {
    match Relation(a.clock, b.clock)
    case BEFORE => true
    case AFTER => false
    case CONCURRENT => a.sender < b.sender
  }

  ghost predicate Before(a: Message, b: Message) {
    Relation(a.clock, b.clock) == BEFORE
  }

  /** Neither is BEFORE the other. */
  ghost predicate Apart(a: Message, b: Message) {
    !Before(a, b) && !Before(b, a)
  }

  lemma LessMeans(a: Message, b: Message)
    requires a.clock.Keys == b.clock.Keys
    ensures Less(a, b) <==> Before(a, b) || (Apart(a, b) && a.sender < b.sender)
    ensures !(Before(a, b) && Before(b, a))
  {
    assert SomeLess(a.clock, b.clock) <==> SomeGreater(b.clock, a.clock);
    assert SomeGreater(a.clock, b.clock) <==> SomeLess(b.clock, a.clock);
  }

  lemma BeforeTransitive(a: Message, b: Message, c: Message)
    requires a.clock.Keys == b.clock.Keys == c.clock.Keys && Before(a, b) && Before(b, c)
    ensures Before(a, c)
  {
    assert forall k :: k in a.clock ==> a.clock[k] <= b.clock[k] <= c.clock[k];
    var k :| k in a.clock && a.clock[k] < Get(b.clock, k);
    assert a.clock[k] < Get(c.clock, k);
  }

  /** Two messages over the same group are never each less than the other. */
  lemma LessIsAsymmetric(a: Message, b: Message)
    requires a.clock.Keys == b.clock.Keys && Less(a, b)
    ensures !Less(b, a)
  {
    hide Less, Before;
    LessMeans(a, b);
    LessMeans(b, a);
  }

  // ---- when it is an order

  /** Messages over one group; different messages of one sender are never concurrent. */
  ghost predicate OneGroup(ms: set<Message>, group: set<Id>) {
    && (forall m :: m in ms ==> m.clock.Keys == group)
    && forall a, b :: a in ms && b in ms && a != b && Apart(a, b) ==> a.sender != b.sender
  }

  ghost predicate Transitive(ms: set<Message>) {
    forall a, b, c :: a in ms && b in ms && c in ms && Less(a, b) && Less(b, c) ==> Less(a, c)
  }

  /** `z` is concurrent to `x` and to the later `y`, and the sender ids run the other way. */
  ghost predicate Against(x: Message, y: Message, z: Message) {
    Before(x, y) && Apart(x, z) && Apart(y, z) && y.sender < z.sender < x.sender
  }

  lemma AgainstCycles(ms: set<Message>, group: set<Id>, x: Message, y: Message, z: Message)
    requires OneGroup(ms, group) && x in ms && y in ms && z in ms && Against(x, y, z)
    ensures Less(y, z) && Less(z, x) && !Less(y, x)
  {
    hide Less, Before;
    LessMeans(y, z);
    LessMeans(z, x);
    LessMeans(y, x);
  }

  lemma LessChains(ms: set<Message>, group: set<Id>, a: Message, b: Message, c: Message)
    requires OneGroup(ms, group) && a in ms && b in ms && c in ms && Less(a, b) && Less(b, c)
    requires !Against(a, b, c) && !Against(b, c, a) && !Against(c, a, b)
    ensures Less(a, c)
  {
    hide Less, Before;
    LessMeans(a, b);
    LessMeans(b, c);
    LessMeans(a, c);
    if Before(a, b) && Before(b, c) {
      BeforeTransitive(a, b, c);
    } else if Before(c, a) {
      if Before(a, b) {
        BeforeTransitive(c, a, b);
      } else if Before(b, c) {
        BeforeTransitive(b, c, a);
      }
    }
  }

  /** The order is transitive exactly if no concurrent message has an id between those of an earlier and a later one. */
  lemma TransitiveIff(ms: set<Message>, group: set<Id>)
    requires OneGroup(ms, group)
    ensures Transitive(ms) <==> !exists x, y, z :: x in ms && y in ms && z in ms && Against(x, y, z)
  {
    hide OneGroup, Less, Against;
    if x, y, z :| x in ms && y in ms && z in ms && Against(x, y, z) {
      AgainstCycles(ms, group, x, y, z);
    } else {
      forall a, b, c | a in ms && b in ms && c in ms && Less(a, b) && Less(b, c) ensures Less(a, c) {
        LessChains(ms, group, a, b, c);
      }
    }
  }

  /**
   * Such messages exist: process 3 multicasts `c`, process 1 multicasts `a` after receiving it, and process 2
   * multicasts `b` before receiving either.
   */
  lemma LessHasCycle() returns (a: Message, b: Message, c: Message)
    ensures OneGroup({a, b, c}, {1, 2, 3}) && Against(c, a, b)
    ensures Less(a, b) && Less(b, c) && Less(c, a) && !Less(a, c)
  {
    hide Less, Relation, Stamp;
    a := Message(1, 1, Stamp(2, 0, 1), MESSAGE, "", map[], {});
    b := Message(2, 1, Stamp(0, 1, 0), MESSAGE, "", map[], {});
    c := Message(3, 1, Stamp(0, 0, 1), MESSAGE, "", map[], {});
    StampKeys(2, 0, 1);
    StampKeys(0, 1, 0);
    StampKeys(0, 0, 1);
    Crossing(a.clock, b.clock, 2, 1);
    Crossing(b.clock, a.clock, 1, 2);
    Crossing(b.clock, c.clock, 3, 2);
    Crossing(c.clock, b.clock, 2, 3);
    Dominated(c.clock, a.clock, 1);
    AgainstCycles({a, b, c}, {1, 2, 3}, c, a, b);
    LessMeans(c, a);
  }

  function Stamp(i: int, j: int, k: int): Clock {
    map[1 := i, 2 := j, 3 := k]
  }

  lemma StampKeys(i: int, j: int, k: int)
    ensures var t := Stamp(i, j, k); t.Keys == {1, 2, 3} && t[1] == i && t[2] == j && t[3] == k
  {
  }

  lemma Crossing(a: Clock, b: Clock, k: Id, l: Id)
    requires k in a && l in a && a[k] < Get(b, k) && a[l] > Get(b, l)
    ensures Relation(a, b) == CONCURRENT
  {
  }

  lemma Dominated(a: Clock, b: Clock, k: Id)
    requires k in a && a[k] < Get(b, k) && forall l :: l in a ==> a[l] <= Get(b, l)
    ensures Relation(a, b) == BEFORE
  {
  }
}

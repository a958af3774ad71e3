/**
 * Registered tests and the order in which they run (gtest.cc, gtest-internal-inl.h): death test cases first, the
 * shuffle, and the selection of tests by filter and shard.
 */
module TestSuite {
  import opened CStrings
  import opened TestFilter
  import opened Arithmetic

  datatype Test = Test(name: string, isDisabled: bool, matchesFilter: bool, shouldRun: bool)

  /** `order` holds the positions of `tests` in the order in which they run. */
  datatype Case = Case(name: string, shouldRun: bool, tests: seq<Test>, order: seq<int>)

  datatype Suite = Suite(cases: seq<Case>, order: seq<int>, lastDeath: int)

  const DEATH_TEST_CASE_FILTER := "*DeathTest:*DeathTest/*"
  const DISABLE_TEST_FILTER := "DISABLED_*:*/DISABLED_*"

  ghost predicate IsDeath(name: string) {
    InSomeGlob(Split(DEATH_TEST_CASE_FILTER, ':'), name)
  }

  // ---- registration

  function NewTest(name: string): Test {
    Test(name, false, false, false)
  }

  function NewCase(name: string): Case {
    Case(name, false, [], [])
  }

  /** The position of the first case with this name, or the number of cases. */
  function FindCase(cases: seq<Case>, name: string): (i: nat)
    ensures i <= |cases| && (i < |cases| ==> cases[i].name == name)
    ensures forall j :: 0 <= j < i ==> cases[j].name != name
  {
    if cases == [] || cases[0].name == name then 0 else 1 + FindCase(cases[1..], name)
  }

  /** Where the case of that name is, once it is registered. */
  ghost function CasePosition(s: Suite, name: string): nat
    requires -1 <= s.lastDeath < |s.cases|
  {
    var i := FindCase(s.cases, name);
    if i == |s.cases| && IsDeath(name) then s.lastDeath + 1 else i
  }

  /** The suite with the case; a new death test case goes behind the last one. */
  ghost function WithCase(s: Suite, name: string): Suite
    requires -1 <= s.lastDeath < |s.cases|
  {
    if FindCase(s.cases, name) < |s.cases| then s
    else
      var d := s.lastDeath + 1;
      if IsDeath(name) then Suite(s.cases[..d] + [NewCase(name)] + s.cases[d..], s.order + [|s.order|], d)
      else Suite(s.cases + [NewCase(name)], s.order + [|s.order|], s.lastDeath)
  }

  function AddTest(c: Case, test: string): Case {
    c.(tests := c.tests + [NewTest(test)], order := c.order + [|c.order|])
  }

  ghost function Register(s: Suite, name: string, test: string): Suite
    requires -1 <= s.lastDeath < |s.cases|
  {
    var i, t := CasePosition(s, name), WithCase(s, name);
    if i < |t.cases| then t.(cases := t.cases[i := AddTest(t.cases[i], test)]) else t
  }

  // ---- shuffling

  const MAX_RANGE := 0x8000_0000

  /** The next state of the random number generator: 32-bit arithmetic, then reduced. */
  function NextRandom(state: nat): nat {
    (1103515245 * state + 12345) % 0x1_0000_0000 % MAX_RANGE
  }

  /** A position from `begin` to below `end`. */
  function Pick(state: nat, begin: nat, end: nat): (k: nat)
    requires begin < end
    ensures begin <= k < end
  {
    begin + state % (end - begin)
  }

  function Swap<T>(v: seq<T>, i: nat, j: nat): seq<T>
    requires i < |v| && j < |v|
  {
    v[i := v[j]][j := v[i]]
  }

  /** Fisher-Yates on the positions from `begin` to `end`: the new sequence and generator state. */
  function ShuffledRange(state: nat, v: seq<int>, begin: nat, end: nat): (r: (seq<int>, nat))
    requires begin <= end <= |v|
    ensures |r.0| == |v|
    decreases end
  {
    if end - begin < 2 then (v, state)
    else
      var next := NextRandom(state);
      ShuffledRange(next, Swap(v, Pick(next, begin, end), end - 1), begin, end - 1)
  }

  /** The tests inside each of the first `n` cases shuffled, one case after the other. */
  function ShuffledCases(state: nat, cases: seq<Case>, n: nat): (r: (seq<Case>, nat))
    requires n <= |cases|
    ensures |r.0| == |cases|
  {
    if n == 0 then (cases, state)
    else
      var (cs, st) := ShuffledCases(state, cases, n - 1);
      var (o, next) := ShuffledRange(st, cases[n - 1].order, 0, |cases[n - 1].order|);
      (cs[n - 1 := cases[n - 1].(order := o)], next)
  }

  function Shuffled(state: nat, s: Suite): (Suite, nat)
    requires -1 <= s.lastDeath < |s.cases| == |s.order|
  {
    var d := s.lastDeath + 1;
    var (o1, st1) := ShuffledRange(state, s.order, 0, d);
    var (o2, st2) := ShuffledRange(st1, o1, d, |s.cases|);
    var (cs, st3) := ShuffledCases(st2, s.cases, |s.cases|);
    (Suite(cs, o2, s.lastDeath), st3)
  }

  function Identity(n: nat): (v: seq<int>)
    ensures |v| == n && forall i :: 0 <= i < n ==> v[i] == i
  {
    seq(n, i => i)
  }

  function UnshuffledCase(c: Case): Case {
    c.(order := Identity(|c.order|))
  }

  function Unshuffled(s: Suite): Suite {
    Suite(seq(|s.cases|, i requires 0 <= i < |s.cases| => UnshuffledCase(s.cases[i])), Identity(|s.order|), s.lastDeath)
  }

  // ---- the invariant

  /** `v` lists the positions below `n`, each once. */
  predicate IsOrder(v: seq<int>, n: nat) {
    |v| == n && multiset(v) == multiset(Identity(n))
  }

  /** The positions below `d` come first. */
  predicate Blocks(v: seq<int>, d: int) {
    forall i :: 0 <= i < |v| ==> (v[i] < d <==> i < d)
  }

  predicate CaseOk(c: Case) {
    IsOrder(c.order, |c.tests|)
  }

  ghost predicate SuiteOk(s: Suite) {
    && -1 <= s.lastDeath < |s.cases| == |s.order|
    && (forall i {:trigger s.cases[i]} :: 0 <= i < |s.cases| ==>
         CaseOk(s.cases[i]) && (IsDeath(s.cases[i].name) <==> i <= s.lastDeath))
    && IsOrder(s.order, |s.cases|) && Blocks(s.order, s.lastDeath + 1)
  }

  predicate IsUnshuffled(s: Suite) {
    s.order == Identity(|s.order|) && forall i :: 0 <= i < |s.cases| ==> s.cases[i].order == Identity(|s.cases[i].order|)
  }

  // ---- orders

  lemma SwapKeeps(v: seq<int>, i: nat, j: nat)
    requires i < |v| && j < |v|
    ensures multiset(Swap(v, i, j)) == multiset(v)
    ensures |Swap(v, i, j)| == |v| && forall k :: 0 <= k < |v| && k != i && k != j ==> Swap(v, i, j)[k] == v[k]
  {
  }

  /** A shuffle permutes its range and leaves the rest alone. */
  lemma {:induction false} ShuffleIsPermutation(state: nat, v: seq<int>, begin: nat, end: nat)
    requires begin <= end <= |v|
    ensures var w := ShuffledRange(state, v, begin, end).0;
      multiset(w) == multiset(v) && forall i :: 0 <= i < begin || end <= i < |v| ==> w[i] == v[i]
    decreases end
  {
    hide Swap, NextRandom, Pick;
    if end - begin >= 2 {
      var next := NextRandom(state);
      var k := Pick(next, begin, end);
      SwapKeeps(v, k, end - 1);
      ShuffleIsPermutation(next, Swap(v, k, end - 1), begin, end - 1);
    }
  }

  lemma {:induction false} ShuffleKeepsBlocks(state: nat, v: seq<int>, begin: nat, end: nat, d: int)
    requires begin <= end <= |v| && Blocks(v, d) && (end <= d || d <= begin)
    ensures Blocks(ShuffledRange(state, v, begin, end).0, d)
    decreases end
  {
    if end - begin >= 2 {
      var next := NextRandom(state);
      ShuffleKeepsBlocks(next, Swap(v, Pick(next, begin, end), end - 1), begin, end - 1, d);
    }
  }

  lemma IdentityNext(n: nat)
    ensures Identity(n + 1) == Identity(n) + [n]
  {
  }

  lemma IdentityIsOrder(n: nat, d: int)
    ensures IsOrder(Identity(n), n) && Blocks(Identity(n), d)
  {
  }

  /** In an order every position comes up, and only positions do. */
  lemma EachOnce(v: seq<int>, n: nat)
    requires IsOrder(v, n)
    ensures forall i :: 0 <= i < n ==> 0 <= v[i] < n
    ensures forall k :: 0 <= k < n ==> k in v
    ensures forall i, j :: 0 <= i < j < n ==> v[i] != v[j]
  {
    forall i | 0 <= i < n ensures 0 <= v[i] < n {
      assert v[i] in multiset(v);
      assert v[i] in Identity(n);
    }
    forall k | 0 <= k < n ensures k in v {
      assert Identity(n)[k] in multiset(Identity(n));
    }
    forall i, j | 0 <= i < j < n ensures v[i] != v[j] {
      CountTwice(v, i, j);
      IdentityCount(n, v[i]);
    }
  }

  lemma CountTwice(v: seq<int>, i: nat, j: nat)
    requires i < j < |v|
    ensures v[i] == v[j] ==> multiset(v)[v[i]] >= 2
  {
    assert v == v[..i] + [v[i]] + v[i + 1..j] + [v[j]] + v[j + 1..];
  }

  lemma {:induction false} IdentityCount(n: nat, k: int)
    ensures multiset(Identity(n))[k] <= 1
  {
    if n > 0 {
      IdentityCount(n - 1, k);
      IdentityNext(n - 1);
      if k == n - 1 {
        assert k !in Identity(n - 1);
      }
    }
  }

  // ---- every operation keeps the invariant

  lemma WithCaseKeeps(s: Suite, name: string)
    requires SuiteOk(s) && IsUnshuffled(s)
    ensures SuiteOk(WithCase(s, name)) && IsUnshuffled(WithCase(s, name))
    ensures
      var i, t := CasePosition(s, name), WithCase(s, name);
      i < |t.cases| && t.cases[i].name == name && FindCase(t.cases, name) == i
  {
    hide IsDeath, FindCase, SuiteOk, IsUnshuffled, NewCase;
    if FindCase(s.cases, name) == |s.cases| {
      var d := if IsDeath(name) then s.lastDeath + 1 else |s.cases|;
      assert s.cases[..|s.cases|] + [NewCase(name)] + s.cases[|s.cases|..] == s.cases + [NewCase(name)];
      SizesOk(s);
      InsertKeeps(s, WithCase(s, name), d, name);
    } else {
      FoundAt(s.cases, name, FindCase(s.cases, name));
    }
  }

  lemma SizesOk(s: Suite)
    requires SuiteOk(s)
    ensures -1 <= s.lastDeath < |s.cases| == |s.order|
  {
  }

  /** A new case at position `d`, which is behind the death test cases if it is one and at the end otherwise. */
  lemma InsertKeeps(s: Suite, t: Suite, d: nat, name: string)
    requires SuiteOk(s) && IsUnshuffled(s) && FindCase(s.cases, name) == |s.cases|
    requires d == if IsDeath(name) then s.lastDeath + 1 else |s.cases|
    requires t.cases == s.cases[..d] + [NewCase(name)] + s.cases[d..] && t.order == s.order + [|s.order|]
    requires t.lastDeath == if IsDeath(name) then d else s.lastDeath
    ensures SuiteOk(t) && IsUnshuffled(t) && t.cases[d].name == name && FindCase(t.cases, name) == d
  {
    hide IsDeath, FindCase, IsOrder, Blocks, CaseOk, NewCase, Identity;
    NewCaseOk(name);
    Inserted(s.cases, d, NewCase(name));
    OrdersGrow(s, t);
    forall i | 0 <= i < |t.cases|
      ensures CaseOk(t.cases[i]) && (IsDeath(t.cases[i].name) <==> i <= t.lastDeath)
      ensures t.cases[i].order == Identity(|t.cases[i].order|) {
      assert i == d || t.cases[i] == s.cases[if i < d then i else i - 1];
    }
    FoundAt(t.cases, name, d);
  }

  lemma NewCaseOk(name: string)
    ensures CaseOk(NewCase(name)) && NewCase(name).name == name
    ensures NewCase(name).order == Identity(|NewCase(name).order|)
  {
    IdentityIsOrder(0, 0);
  }

  lemma OrdersGrow(s: Suite, t: Suite)
    requires IsUnshuffled(s) && |s.order| == |s.cases| && |t.cases| == |s.cases| + 1
    requires t.order == s.order + [|s.order|]
    ensures t.order == Identity(|t.order|) && IsOrder(t.order, |t.cases|) && Blocks(t.order, t.lastDeath + 1)
  {
    IdentityNext(|s.cases|);
    IdentityIsOrder(|s.cases| + 1, t.lastDeath + 1);
  }

  lemma {:induction false} FoundAt(cases: seq<Case>, name: string, i: nat)
    requires i < |cases| && cases[i].name == name && forall j :: 0 <= j < i ==> cases[j].name != name
    ensures FindCase(cases, name) == i
  {
    if i > 0 {
      FoundAt(cases[1..], name, i - 1);
    }
  }

  lemma RegisterKeeps(s: Suite, name: string, test: string)
    requires SuiteOk(s) && IsUnshuffled(s)
    ensures SuiteOk(Register(s, name, test)) && IsUnshuffled(Register(s, name, test))
  {
    hide InSomeGlob, IsDeath, WithCase, CasePosition, IsOrder;
    WithCaseKeeps(s, name);
    var i, t := CasePosition(s, name), WithCase(s, name);
    AddTestKeeps(t.cases[i], test);
  }

  lemma AddTestKeeps(c: Case, test: string)
    requires CaseOk(c) && c.order == Identity(|c.order|)
    ensures CaseOk(AddTest(c, test)) && AddTest(c, test).order == Identity(|c.order| + 1)
  {
    IdentityNext(|c.order|);
    IdentityIsOrder(|c.order| + 1, 0);
  }

  lemma {:induction false} CasesShuffled(state: nat, cases: seq<Case>, n: nat, i: nat)
    requires n <= |cases| && i < |cases| && forall k :: 0 <= k < |cases| ==> CaseOk(cases[k])
    ensures
      var c := ShuffledCases(state, cases, n).0[i];
      CaseOk(c) && c.name == cases[i].name && c.tests == cases[i].tests && c.shouldRun == cases[i].shouldRun
  {
    hide Swap, NextRandom, Pick;
    if n > 0 {
      CasesShuffled(state, cases, n - 1, i);
      var st := ShuffledCases(state, cases, n - 1).1;
      ShuffleIsPermutation(st, cases[n - 1].order, 0, |cases[n - 1].order|);
    }
  }

  lemma ShuffleKeeps(state: nat, s: Suite)
    requires SuiteOk(s)
    ensures SuiteOk(Shuffled(state, s).0)
  {
    hide IsDeath, Swap, NextRandom, Pick, ShuffledRange, ShuffledCases, Blocks, CaseOk;
    var d := s.lastDeath + 1;
    var (o1, st1) := ShuffledRange(state, s.order, 0, d);
    var (o2, st2) := ShuffledRange(st1, o1, d, |s.cases|);
    ShuffleIsPermutation(state, s.order, 0, d);
    ShuffleIsPermutation(st1, o1, d, |s.cases|);
    ShuffleKeepsBlocks(state, s.order, 0, d, d);
    ShuffleKeepsBlocks(st1, o1, d, |s.cases|, d);
    forall i: nat | i < |s.cases|
      ensures var c := ShuffledCases(st2, s.cases, |s.cases|).0[i]; CaseOk(c) && c.name == s.cases[i].name {
      CasesShuffled(st2, s.cases, |s.cases|, i);
    }
  }

  lemma UnshuffleKeeps(s: Suite)
    requires SuiteOk(s)
    ensures SuiteOk(Unshuffled(s)) && IsUnshuffled(Unshuffled(s))
  {
    hide IsDeath;
    IdentityIsOrder(|s.cases|, s.lastDeath + 1);
    forall i | 0 <= i < |s.cases| ensures CaseOk(UnshuffledCase(s.cases[i])) {
      IdentityIsOrder(|s.cases[i].tests|, 0);
    }
  }

  // ---- runs

  /** A registration, a shuffle with the generator in some state, or an unshuffling. */
  datatype Event = Registered(testCase: string, test: string) | Shuffle(random: nat) | Unshuffle

  const NEW_SUITE := Suite([], [], -1)

  /** Nothing has been shuffled since the last unshuffling. */
  predicate Calm(es: seq<Event>) {
    es == [] || es[|es| - 1].Unshuffle? || (es[|es| - 1].Registered? && Calm(es[..|es| - 1]))
  }

  /** Tests are registered only while nothing is shuffled. */
  predicate Legal(es: seq<Event>) {
    forall i :: 0 <= i < |es| && es[i].Registered? ==> Calm(es[..i])
  }

  lemma LegalBefore(es: seq<Event>)
    requires Legal(es) && es != []
    ensures Legal(es[..|es| - 1])
    ensures es[|es| - 1].Registered? ==> Calm(es[..|es| - 1])
  {
    var before := es[..|es| - 1];
    forall i | 0 <= i < |before| && before[i].Registered? ensures Calm(before[..i]) {
      assert before[..i] == es[..i];
    }
  }

  ghost function Apply(s: Suite, e: Event): (r: Suite)
    requires SuiteOk(s) && (e.Registered? ==> IsUnshuffled(s))
    ensures SuiteOk(r) && (!e.Shuffle? ==> IsUnshuffled(r))
  {
    match e
    case Registered(testCase, test) =>
      RegisterKeeps(s, testCase, test);
      Register(s, testCase, test)
    case Shuffle(random) =>
      ShuffleKeeps(random, s);
      Shuffled(random, s).0
    case Unshuffle =>
      UnshuffleKeeps(s);
      Unshuffled(s)
  }

  /** The suite after a run. */
  ghost function After(es: seq<Event>): (s: Suite)
    requires Legal(es)
    ensures SuiteOk(s) && (Calm(es) ==> IsUnshuffled(s))
  {
    if es == [] then
      NewSuiteOk();
      NEW_SUITE
    else
      LegalBefore(es);
      Apply(After(es[..|es| - 1]), es[|es| - 1])
  }

  lemma NewSuiteOk()
    ensures SuiteOk(NEW_SUITE) && IsUnshuffled(NEW_SUITE)
  {
    IdentityIsOrder(0, 0);
  }

  /** The case that runs in position `i`. */
  function Runs(s: Suite, i: nat): Case
    requires i < |s.order| && 0 <= s.order[i] < |s.cases|
  {
    s.cases[s.order[i]]
  }

  /** After any run every death test case runs before every other, and each case and test has exactly one turn. */
  lemma DeathTestsFirst(es: seq<Event>)
    requires Legal(es)
    ensures
      var s := After(es);
      && (forall i :: 0 <= i < |s.order| ==> 0 <= s.order[i] < |s.cases|)
      && (forall i, j :: 0 <= i < j < |s.order| && IsDeath(Runs(s, j).name) ==> IsDeath(Runs(s, i).name))
      && (forall k :: 0 <= k < |s.cases| ==> k in s.order)
      && (forall i, j :: 0 <= i < j < |s.order| ==> s.order[i] != s.order[j])
  {
    hide IsDeath, After, Legal, CaseOk, IsOrder;
    var s := After(es);
    EachOnce(s.order, |s.cases|);
    forall i | 0 <= i < |s.order| ensures IsDeath(Runs(s, i).name) <==> i <= s.lastDeath {
      assert Runs(s, i) == s.cases[s.order[i]];
    }
  }

  lemma TestsOnce(es: seq<Event>, k: nat)
    requires Legal(es) && k < |After(es).cases|
    ensures
      var c := After(es).cases[k];
      && |c.order| == |c.tests| && (forall i :: 0 <= i < |c.order| ==> 0 <= c.order[i] < |c.tests|)
      && (forall j :: 0 <= j < |c.tests| ==> j in c.order)
      && (forall i, j :: 0 <= i < j < |c.order| ==> c.order[i] != c.order[j])
  {
    hide IsDeath, After, Legal;
    var c := After(es).cases[k];
    assert CaseOk(c);
    EachOnce(c.order, |c.tests|);
  }

  // ---- nothing is lost: the tests of a case are those registered for it

  function TestNames(c: Case): seq<string> {
    seq(|c.tests|, i requires 0 <= i < |c.tests| => c.tests[i].name)
  }

  function Registrations(es: seq<Event>, name: string): seq<string> {
    if es == [] then []
    else
      var before, e := Registrations(es[..|es| - 1], name), es[|es| - 1];
      if e.Registered? && e.testCase == name then before + [e.test] else before
  }

  /** The names of the tests of the case of that name; none, if there is no such case. */
  function TestsOf(s: Suite, name: string): seq<string> {
    var i := FindCase(s.cases, name);
    if i < |s.cases| then TestNames(s.cases[i]) else []
  }

  /** Shuffling and unshuffling change only orders. */
  lemma {:induction false} SameCases(a: seq<Case>, b: seq<Case>, name: string)
    requires |a| == |b| && forall i :: 0 <= i < |a| ==> a[i].name == b[i].name && a[i].tests == b[i].tests
    ensures FindCase(a, name) == FindCase(b, name)
    ensures TestsOf(Suite(a, [], -1), name) == TestsOf(Suite(b, [], -1), name)
  {
    if a != [] && a[0].name != name {
      SameCases(a[1..], b[1..], name);
    }
  }

  lemma RegisteredTests(s: Suite, testCase: string, test: string, name: string)
    requires SuiteOk(s) && IsUnshuffled(s)
    ensures TestsOf(Register(s, testCase, test), name)
      == TestsOf(s, name) + if testCase == name then [test] else []
  {
    hide IsDeath, IsUnshuffled, CaseOk, IsOrder, Blocks, WithCase, CasePosition, TestsOf;
    WithCaseKeeps(s, testCase);
    WithCaseTests(s, testCase, name);
    var i, t := CasePosition(s, testCase), WithCase(s, testCase);
    AddedTests(t, i, test, name);
  }

  lemma WithCaseTests(s: Suite, testCase: string, name: string)
    requires -1 <= s.lastDeath < |s.cases|
    ensures TestsOf(WithCase(s, testCase), name) == TestsOf(s, name)
  {
    hide IsDeath, FindCase, TestsOf, NewCase;
    if FindCase(s.cases, testCase) == |s.cases| {
      var d := if IsDeath(testCase) then s.lastDeath + 1 else |s.cases|;
      assert s.cases[..|s.cases|] + [NewCase(testCase)] + s.cases[|s.cases|..] == s.cases + [NewCase(testCase)];
      Inserted(s.cases, d, NewCase(testCase));
      InsertedCase(s.cases, d, testCase, WithCase(s, testCase).cases, name);
      TestsOfCases(WithCase(s, testCase), name);
      TestsOfCases(s, name);
    }
  }

  lemma TestsOfCases(s: Suite, name: string)
    ensures TestsOf(s, name) == TestsOf(Suite(s.cases, [], -1), name)
  {
  }

  lemma InsertedCase(cases: seq<Case>, d: nat, new_: string, more: seq<Case>, name: string)
    requires IsInserted(cases, d, NewCase(new_), more) && FindCase(cases, new_) == |cases|
    ensures TestsOf(Suite(more, [], -1), name) == TestsOf(Suite(cases, [], -1), name)
  {
    hide FindCase, TestNames, IsInserted;
    FindInserted(cases, d, NewCase(new_), more, name);
    NoNames(new_);
    InsertedAt(cases, d, NewCase(new_), more, 0);
    InsertedAt(cases, d, NewCase(new_), more, FindCase(more, name));
  }

  /** `more` is `cases` with `c` at position `d`. */
  ghost predicate IsInserted(cases: seq<Case>, d: nat, c: Case, more: seq<Case>) {
    && d <= |cases| && |more| == |cases| + 1 && more[d] == c
    && (forall k :: 0 <= k < d ==> more[k] == cases[k]) && (forall k :: d < k < |more| ==> more[k] == cases[k - 1])
  }

  lemma Inserted(cases: seq<Case>, d: nat, c: Case)
    requires d <= |cases|
    ensures IsInserted(cases, d, c, cases[..d] + [c] + cases[d..])
  {
  }

  lemma InsertedAt(cases: seq<Case>, d: nat, c: Case, more: seq<Case>, k: nat)
    requires IsInserted(cases, d, c, more) && k <= |more|
    ensures |more| == |cases| + 1 && d <= |cases|
    ensures k < d ==> more[k] == cases[k]
    ensures k == d ==> more[k] == c
    ensures d < k < |more| ==> more[k] == cases[k - 1]
  {
  }

  /** Where the first case of a name is found after an insertion. */
  lemma FindInserted(cases: seq<Case>, d: nat, c: Case, more: seq<Case>, name: string)
    requires IsInserted(cases, d, c, more) && (c.name == name ==> FindCase(cases, name) == |cases|)
    ensures FindCase(more, name) ==
      if c.name == name then d else if FindCase(cases, name) < d then FindCase(cases, name) else FindCase(cases, name) + 1
  {
    hide FindCase, IsInserted;
    InsertedAt(cases, d, c, more, 0);
    var i := FindCase(cases, name);
    var j := if c.name == name then d else if i < d then i else i + 1;
    forall k | 0 <= k < j && k < |more| ensures more[k].name != name {
      InsertedAt(cases, d, c, more, k);
    }
    InsertedAt(cases, d, c, more, j);
    if j < |more| {
      FoundAt(more, name, j);
    } else {
      NotFound(more, name);
    }
  }

  lemma NoNames(name: string)
    ensures TestNames(NewCase(name)) == []
  {
  }

  lemma NotFound(cases: seq<Case>, name: string)
    requires forall i :: 0 <= i < |cases| ==> cases[i].name != name
    ensures FindCase(cases, name) == |cases|
  {
  }

  lemma AddedTests(t: Suite, i: nat, test: string, name: string)
    requires i < |t.cases| && FindCase(t.cases, t.cases[i].name) == i
    ensures TestsOf(t.(cases := t.cases[i := AddTest(t.cases[i], test)]), name)
      == TestsOf(t, name) + if t.cases[i].name == name then [test] else []
  {
    hide FindCase;
    var cs := t.cases[i := AddTest(t.cases[i], test)];
    var j := FindCase(t.cases, name);
    if j < |cs| {
      FoundAt(cs, name, j);
    } else {
      NotFound(cs, name);
    }
    assert TestNames(AddTest(t.cases[i], test)) == TestNames(t.cases[i]) + [test];
  }

  lemma {:induction false} NothingIsLost(es: seq<Event>, name: string)
    requires Legal(es)
    ensures TestsOf(After(es), name) == Registrations(es, name)
  {
    hide SuiteOk, IsUnshuffled, Register, Shuffled, Unshuffled, Legal, TestsOf;
    if es == [] {
      EmptySuite(name);
    } else {
      LegalBefore(es);
      var s, e := After(es[..|es| - 1]), es[|es| - 1];
      NothingIsLost(es[..|es| - 1], name);
      match e
      case Registered(testCase, test) => RegisteredTests(s, testCase, test, name);
      case Shuffle(random) => ShuffledTests(random, s, name);
      case Unshuffle => UnshuffledTests(s, name);
    }
  }

  lemma EmptySuite(name: string)
    ensures TestsOf(NEW_SUITE, name) == []
  {
  }

  lemma ShuffledTests(state: nat, s: Suite, name: string)
    requires SuiteOk(s)
    ensures TestsOf(Shuffled(state, s).0, name) == TestsOf(s, name)
  {
    hide IsDeath, CaseOk, ShuffledRange, ShuffledCases;
    var d := s.lastDeath + 1;
    var (o1, st1) := ShuffledRange(state, s.order, 0, d);
    var (o2, st2) := ShuffledRange(st1, o1, d, |s.cases|);
    forall i: nat | i < |s.cases|
      ensures var c := ShuffledCases(st2, s.cases, |s.cases|).0[i]; c.name == s.cases[i].name && c.tests == s.cases[i].tests {
      CasesShuffled(st2, s.cases, |s.cases|, i);
    }
    SameCases(ShuffledCases(st2, s.cases, |s.cases|).0, s.cases, name);
  }

  lemma UnshuffledTests(s: Suite, name: string)
    ensures TestsOf(Unshuffled(s), name) == TestsOf(s, name)
  {
    SameCases(Unshuffled(s).cases, s.cases, name);
  }

  // ---- cases stay in the order of registration

  function Names(cases: seq<Case>): (r: seq<string>)
    ensures |r| == |cases| && forall i :: 0 <= i < |r| ==> r[i] == cases[i].name
  {
    seq(|cases|, i requires 0 <= i < |cases| => cases[i].name)
  }

  /** The names of the cases in the order of their first registration. */
  function FirstSeen(es: seq<Event>): seq<string> {
    if es == [] then []
    else
      var before, e := FirstSeen(es[..|es| - 1]), es[|es| - 1];
      if e.Registered? && e.testCase !in before then before + [e.testCase] else before
  }

  /** The names of death test cases, or of the others, in the same order. */
  ghost function Block(names: seq<string>, death: bool): seq<string> {
    if names == [] then []
    else
      var last := names[|names| - 1];
      Block(names[..|names| - 1], death) + if IsDeath(last) == death then [last] else []
  }

  lemma BlockNext(names: seq<string>, name: string, death: bool)
    ensures Block(names + [name], death) == Block(names, death) + if IsDeath(name) == death then [name] else []
  {
    assert (names + [name])[..|names|] == names;
  }

  lemma {:induction false} BlockMembers(names: seq<string>, name: string)
    ensures name in Block(names, true) + Block(names, false) <==> name in names
  {
    hide IsDeath;
    if names != [] {
      BlockMembers(names[..|names| - 1], name);
      assert names == names[..|names| - 1] + [names[|names| - 1]];
    }
  }

  /**
   * After any run the death test cases are listed in the order of their first registration, and behind them the others
   * in theirs.
   */
  lemma {:induction false} CasesInOrder(es: seq<Event>)
    requires Legal(es)
    ensures Names(After(es).cases) == Block(FirstSeen(es), true) + Block(FirstSeen(es), false)
    ensures After(es).lastDeath + 1 == |Block(FirstSeen(es), true)|
  {
    hide SuiteOk, IsUnshuffled, Register, Shuffled, Unshuffled, Legal, Names, Block, IsDeath;
    if es == [] {
      NoNamesYet();
    } else {
      LegalBefore(es);
      var before, e := es[..|es| - 1], es[|es| - 1];
      var s, first := After(before), FirstSeen(before);
      CasesInOrder(before);
      match e
      case Registered(testCase, test) =>
        SizesOk(s);
        BlockMembers(first, testCase);
        RegisteredNames(s, testCase, test);
        BlockNext(first, testCase, true);
        BlockNext(first, testCase, false);
      case Shuffle(random) => ShuffledNames(random, s);
      case Unshuffle => UnshuffledNames(s);
    }
  }

  lemma NoNamesYet()
    ensures Names(NEW_SUITE.cases) == Block([], true) + Block([], false) && Block([], true) == []
  {
  }

  lemma RegisteredNames(s: Suite, name: string, test: string)
    requires SuiteOk(s) && IsUnshuffled(s) && -1 <= s.lastDeath < |s.cases|
    ensures
      var d, r, names := s.lastDeath + 1, Register(s, name, test), Names(s.cases);
      if name in names then Names(r.cases) == names && r.lastDeath == s.lastDeath
      else if IsDeath(name) then Names(r.cases) == names[..d] + [name] + names[d..] && r.lastDeath == d
      else Names(r.cases) == names + [name] && r.lastDeath == s.lastDeath
  {
    hide SuiteOk, IsUnshuffled, IsDeath, WithCase, CasePosition, FindCase, Names;
    WithCaseKeeps(s, name);
    WithCaseNames(s, name);
    var i, t := CasePosition(s, name), WithCase(s, name);
    AddedNames(t.cases, i, test);
  }

  lemma AddedNames(cases: seq<Case>, i: nat, test: string)
    requires i < |cases|
    ensures Names(cases[i := AddTest(cases[i], test)]) == Names(cases)
  {
  }

  lemma WithCaseNames(s: Suite, name: string)
    requires -1 <= s.lastDeath < |s.cases|
    ensures
      var d, t, names := s.lastDeath + 1, WithCase(s, name), Names(s.cases);
      if name in names then Names(t.cases) == names && t.lastDeath == s.lastDeath
      else if IsDeath(name) then Names(t.cases) == names[..d] + [name] + names[d..] && t.lastDeath == d
      else Names(t.cases) == names + [name] && t.lastDeath == s.lastDeath
  {
    hide IsDeath, FindCase, Names;
    NamesFound(s.cases, name);
    InsertedNames(s.cases, s.lastDeath + 1, name);
    InsertedNames(s.cases, |s.cases|, name);
    assert s.cases[..|s.cases|] + [NewCase(name)] + s.cases[|s.cases|..] == s.cases + [NewCase(name)];
    assert Names(s.cases)[..|s.cases|] + [name] + Names(s.cases)[|s.cases|..] == Names(s.cases) + [name];
  }

  lemma InsertedNames(cases: seq<Case>, d: nat, name: string)
    requires d <= |cases|
    ensures Names(cases[..d] + [NewCase(name)] + cases[d..]) == Names(cases)[..d] + [name] + Names(cases)[d..]
  {
  }

  lemma NamesFound(cases: seq<Case>, name: string)
    ensures name in Names(cases) <==> FindCase(cases, name) < |cases|
  {
    hide FindCase;
    var i := FindCase(cases, name);
    if i < |cases| {
      assert Names(cases)[i] == name;
    }
  }

  lemma ShuffledNames(state: nat, s: Suite)
    requires SuiteOk(s)
    ensures Names(Shuffled(state, s).0.cases) == Names(s.cases) && Shuffled(state, s).0.lastDeath == s.lastDeath
  {
    hide IsDeath, ShuffledRange, ShuffledCases;
    var d := s.lastDeath + 1;
    var (o1, st1) := ShuffledRange(state, s.order, 0, d);
    var (o2, st2) := ShuffledRange(st1, o1, d, |s.cases|);
    forall i: nat | i < |s.cases| ensures ShuffledCases(st2, s.cases, |s.cases|).0[i].name == s.cases[i].name {
      CasesShuffled(st2, s.cases, |s.cases|, i);
    }
  }

  lemma UnshuffledNames(s: Suite)
    ensures Names(Unshuffled(s).cases) == Names(s.cases) && Unshuffled(s).lastDeath == s.lastDeath
  {
  }

  // ---- unshuffling restores the order of registration

  lemma UnshuffledShuffled(state: nat, s: Suite)
    requires SuiteOk(s)
    ensures Unshuffled(Shuffled(state, s).0) == Unshuffled(s)
  {
    hide IsDeath, ShuffledRange, ShuffledCases;
    var d := s.lastDeath + 1;
    var (o1, st1) := ShuffledRange(state, s.order, 0, d);
    var (o2, st2) := ShuffledRange(st1, o1, d, |s.cases|);
    var cs := ShuffledCases(st2, s.cases, |s.cases|).0;
    forall i: nat | i < |s.cases| ensures UnshuffledCase(cs[i]) == UnshuffledCase(s.cases[i]) {
      CasesShuffled(st2, s.cases, |s.cases|, i);
      assert CaseOk(s.cases[i]) && CaseOk(cs[i]);
    }
  }

  lemma UnshuffledTwice(s: Suite)
    ensures Unshuffled(Unshuffled(s)) == Unshuffled(s)
    ensures IsUnshuffled(s) ==> Unshuffled(s) == s
  {
  }

  /** No run of shuffles and unshufflings keeps the next unshuffling from restoring the suite as it was registered. */
  lemma {:induction false} UnshuffleRestores(es: seq<Event>, more: seq<Event>)
    requires Legal(es) && Calm(es) && forall i :: 0 <= i < |more| ==> !more[i].Registered?
    ensures Legal(es + more)
    ensures Unshuffled(After(es + more)) == After(es)
    decreases |more|
  {
    hide SuiteOk, IsUnshuffled, Unshuffled, Shuffled, Calm, Register, Legal;
    if more == [] {
      assert es + more == es;
      UnshuffledTwice(After(es));
    } else {
      var before := more[..|more| - 1];
      UnshuffleRestores(es, before);
      LegalAfter(es, more);
      AfterMore(es, more);
      var s := After(es + before);
      if more[|more| - 1].Shuffle? {
        UnshuffledShuffled(more[|more| - 1].random, s);
      } else {
        UnshuffledTwice(s);
      }
    }
  }

  lemma AfterMore(es: seq<Event>, more: seq<Event>)
    requires more != [] && Legal(es + more) && !more[|more| - 1].Registered?
    ensures
      var before := more[..|more| - 1];
      Legal(es + before) && After(es + more) == Apply(After(es + before), more[|more| - 1])
  {
    hide SuiteOk, IsUnshuffled, Unshuffled, Shuffled, Calm, Register, Legal, Apply;
    assert (es + more)[..|es + more| - 1] == es + more[..|more| - 1];
    LegalBefore(es + more);
  }

  lemma LegalAfter(es: seq<Event>, more: seq<Event>)
    requires Legal(es) && forall i :: 0 <= i < |more| ==> !more[i].Registered?
    ensures Legal(es + more)
  {
    hide Calm;
    forall i | 0 <= i < |es + more| && (es + more)[i].Registered? ensures Calm((es + more)[..i]) {
      assert (es + more)[..i] == es[..i];
    }
  }

  // ---- which tests run

  /** The flags that select tests. */
  datatype Flags = Flags(filter: string, alsoRunDisabled: bool)

  datatype Shards = AllShards | Shard(total: int, index: int)

  ghost predicate Disabled(testCase: string, test: string) {
    var patterns := Split(DISABLE_TEST_FILTER, ':');
    InSomeGlob(patterns, testCase) || InSomeGlob(patterns, test)
  }

  ghost predicate Chosen(f: Flags, testCase: string, test: string) {
    Selects(f.filter, testCase, test)
  }

  ghost predicate Runnable(f: Flags, testCase: string, test: string) {
    (f.alsoRunDisabled || !Disabled(testCase, test)) && Chosen(f, testCase, test)
  }

  predicate OnShard(s: Shards, id: nat)
    requires s.Shard? ==> s.total > 0
  {
    s.Shard? ==> id % s.total == s.index
  }

  /** How many of the first `j` tests of a case can run. */
  ghost function RunnableIn(f: Flags, c: Case, j: nat): nat
    requires j <= |c.tests|
  {
    if j == 0 then 0 else RunnableIn(f, c, j - 1) + if Runnable(f, c.name, c.tests[j - 1].name) then 1 else 0
  }

  ghost function RunnableBefore(f: Flags, cases: seq<Case>, i: nat): nat
    requires i <= |cases|
  {
    if i == 0 then 0 else RunnableBefore(f, cases, i - 1) + RunnableIn(f, cases[i - 1], |cases[i - 1].tests|)
  }

  ghost function Verdict(f: Flags, s: Shards, testCase: string, t: Test, id: nat): Test
    requires s.Shard? ==> s.total > 0
  {
    Test(t.name, Disabled(testCase, t.name), Chosen(f, testCase, t.name),
         Runnable(f, testCase, t.name) && OnShard(s, id))
  }

  ghost function Verdicts(f: Flags, s: Shards, c: Case, id: nat): (r: seq<Test>)
    requires s.Shard? ==> s.total > 0
    ensures |r| == |c.tests|
  {
    seq(|c.tests|, j requires 0 <= j < |c.tests| => Verdict(f, s, c.name, c.tests[j], id + RunnableIn(f, c, j)))
  }

  /** A case runs if one of its tests does. */
  predicate SomeRuns(tests: seq<Test>) {
    exists j :: 0 <= j < |tests| && tests[j].shouldRun
  }

  ghost function FilteredCase(f: Flags, s: Shards, c: Case, id: nat): Case
    requires s.Shard? ==> s.total > 0
  {
    c.(tests := Verdicts(f, s, c, id), shouldRun := SomeRuns(Verdicts(f, s, c, id)))
  }

  ghost function Filtered(f: Flags, s: Shards, cases: seq<Case>): (r: seq<Case>)
    requires s.Shard? ==> s.total > 0
    ensures |r| == |cases|
  {
    seq(|cases|, i requires 0 <= i < |cases| => FilteredCase(f, s, cases[i], RunnableBefore(f, cases, i)))
  }

  /** The verdict on test `j` of case `i`. */
  lemma FilteredAt(f: Flags, s: Shards, cases: seq<Case>, i: nat, j: nat)
    requires (s.Shard? ==> s.total > 0) && i < |cases| && j < |cases[i].tests|
    ensures
      var id := RunnableBefore(f, cases, i) + RunnableIn(f, cases[i], j);
      && |Filtered(f, s, cases)[i].tests| == |cases[i].tests|
      && Filtered(f, s, cases)[i].tests[j] == Verdict(f, s, cases[i].name, cases[i].tests[j], id)
  {
    hide Verdict, Runnable, RunnableIn, RunnableBefore, SomeRuns, Disabled, Chosen, Verdicts;
    var k := RunnableBefore(f, cases, i);
    assert Filtered(f, s, cases)[i] == FilteredCase(f, s, cases[i], k);
    VerdictAt(f, s, cases[i], k, j);
  }

  lemma VerdictAt(f: Flags, s: Shards, c: Case, id: nat, j: nat)
    requires (s.Shard? ==> s.total > 0) && j < |c.tests|
    ensures Verdicts(f, s, c, id)[j] == Verdict(f, s, c.name, c.tests[j], id + RunnableIn(f, c, j))
  {
    hide Verdict, Runnable, RunnableIn, Disabled, Chosen;
  }

  /** How many of the first `n` test ids a shard takes. */
  function Taken(s: Shards, n: nat): nat
    requires s.Shard? ==> s.total > 0
  {
    if n == 0 then 0 else Taken(s, n - 1) + if OnShard(s, n - 1) then 1 else 0
  }

  // ---- sharding divides the runnable tests

  ghost predicate ShouldRun(f: Flags, s: Shards, cases: seq<Case>, i: nat, j: nat)
    requires (s.Shard? ==> s.total > 0) && i < |cases| && j < |cases[i].tests|
  {
    var c := Filtered(f, s, cases)[i];
    j < |c.tests| && c.tests[j].shouldRun
  }

  /** A runnable test runs on exactly one shard of any number of them, and on all machines without sharding. */
  lemma OneShard(f: Flags, cases: seq<Case>, total: int, i: nat, j: nat) returns (owner: int)
    requires total > 0 && i < |cases| && j < |cases[i].tests|
    ensures 0 <= owner < total
    ensures forall k :: 0 <= k < total ==>
      (ShouldRun(f, Shard(total, k), cases, i, j) <==> Runnable(f, cases[i].name, cases[i].tests[j].name) && k == owner)
    ensures ShouldRun(f, AllShards, cases, i, j) <==> Runnable(f, cases[i].name, cases[i].tests[j].name)
  {
    hide Runnable, Disabled, Chosen, Filtered, RunnableBefore, RunnableIn;
    var id := RunnableBefore(f, cases, i) + RunnableIn(f, cases[i], j);
    owner := id % total;
    FilteredAt(f, AllShards, cases, i, j);
    forall k | 0 <= k < total
      ensures ShouldRun(f, Shard(total, k), cases, i, j)
        <==> Runnable(f, cases[i].name, cases[i].tests[j].name) && k == owner {
      FilteredAt(f, Shard(total, k), cases, i, j);
    }
  }

  /** Every shard takes its part, rounded up for the first ones. */
  lemma {:induction false} TakenCount(total: int, k: int, n: nat)
    requires 0 <= k < total
    ensures Taken(Shard(total, k), n) == (n + total - 1 - k) / total
  {
    if n == 0 {
      SmallQuotient(total - 1 - k, total);
    } else {
      TakenCount(total, k, n - 1);
      NextQuotient(n - 1, total, k);
    }
  }

  lemma SmallQuotient(x: int, d: int)
    requires 0 <= x < d
    ensures x / d == 0
  {
  }

  lemma NextQuotient(n: nat, d: int, k: int)
    requires 0 <= k < d
    ensures (n + 1 + d - 1 - k) / d == (n + d - 1 - k) / d + if n % d == k then 1 else 0
  {
    var q, r := n / d, n % d;
    assert n == d * q + r;
    if r < k {
      QuotientIs(n + d - 1 - k, d, q, r + d - 1 - k);
      QuotientIs(n + d - k, d, q, r + d - k);
    } else if r == k {
      QuotientIs(n + d - 1 - k, d, q, d - 1);
      assert d * (q + 1) == d * q + d;
      QuotientIs(n + d - k, d, q + 1, 0);
    } else {
      assert d * (q + 1) == d * q + d;
      QuotientIs(n + d - 1 - k, d, q + 1, r - 1 - k);
      QuotientIs(n + d - k, d, q + 1, r - k);
    }
  }

  /** What the first `m` shards take of `n` tests. */
  function TakenByFirst(total: int, m: nat, n: nat): nat
    requires m <= total && total > 0
  {
    if m == 0 then 0 else TakenByFirst(total, m - 1, n) + Taken(Shard(total, m - 1), n)
  }

  lemma {:induction false} OneMoreTaken(total: int, m: nat, n: nat)
    requires m <= total && total > 0
    ensures TakenByFirst(total, m, n + 1) == TakenByFirst(total, m, n) + if n % total < m then 1 else 0
  {
    if m > 0 {
      OneMoreTaken(total, m - 1, n);
    }
  }

  /** Together the shards take every runnable test. */
  lemma {:induction false} AllTaken(total: int, n: nat)
    requires total > 0
    ensures TakenByFirst(total, total, n) == n
  {
    if n == 0 {
      NoneTaken(total, total);
    } else {
      AllTaken(total, n - 1);
      OneMoreTaken(total, total, n - 1);
    }
  }

  lemma {:induction false} NoneTaken(total: int, m: nat)
    requires m <= total && total > 0
    ensures TakenByFirst(total, m, 0) == 0
  {
    if m > 0 {
      NoneTaken(total, m - 1);
    }
  }

  /** How many tests of the first `n` are marked to run. */
  function RunningIn(tests: seq<Test>, n: nat): nat
    requires n <= |tests|
  {
    if n == 0 then 0 else RunningIn(tests, n - 1) + if tests[n - 1].shouldRun then 1 else 0
  }

  /** How many tests of the first `n` cases are marked to run. */
  function Running(cases: seq<Case>, n: nat): nat
    requires n <= |cases|
  {
    if n == 0 then 0 else Running(cases, n - 1) + RunningIn(cases[n - 1].tests, |cases[n - 1].tests|)
  }

  lemma {:induction false} RunningTests(f: Flags, s: Shards, c: Case, id: nat, j: nat)
    requires (s.Shard? ==> s.total > 0) && j <= |c.tests|
    ensures RunningIn(Verdicts(f, s, c, id), j) == Taken(s, id + RunnableIn(f, c, j)) - Taken(s, id)
  {
    hide Runnable, OnShard, Verdicts, Taken, Disabled, Chosen;
    if j > 0 {
      RunningTests(f, s, c, id, j - 1);
      VerdictAt(f, s, c, id, j - 1);
      TakenNext(s, id + RunnableIn(f, c, j - 1));
    }
  }

  lemma TakenNext(s: Shards, n: nat)
    requires s.Shard? ==> s.total > 0
    ensures Taken(s, n + 1) == Taken(s, n) + if OnShard(s, n) then 1 else 0
  {
    hide OnShard;
  }

  lemma RunningNext(cases: seq<Case>, i: nat)
    requires i < |cases|
    ensures Running(cases, i + 1) == Running(cases, i) + RunningIn(cases[i].tests, |cases[i].tests|)
  {
  }

  lemma {:induction false} RunningCases(f: Flags, s: Shards, cases: seq<Case>, i: nat)
    requires (s.Shard? ==> s.total > 0) && i <= |cases|
    ensures Running(Filtered(f, s, cases), i) == Taken(s, RunnableBefore(f, cases, i))
  {
    hide Verdicts, RunningIn, RunnableIn, Taken, Running, Filtered;
    if i == 0 {
      NothingRuns(f, s, cases);
    } else {
      RunningCases(f, s, cases, i - 1);
      var c := cases[i - 1];
      RunningNext(Filtered(f, s, cases), i - 1);
      CaseVerdicts(f, s, cases, i - 1);
      RunningTests(f, s, c, RunnableBefore(f, cases, i - 1), |c.tests|);
    }
  }

  lemma CaseVerdicts(f: Flags, s: Shards, cases: seq<Case>, i: nat)
    requires (s.Shard? ==> s.total > 0) && i < |cases|
    ensures Filtered(f, s, cases)[i].tests == Verdicts(f, s, cases[i], RunnableBefore(f, cases, i))
  {
    hide Verdicts, RunnableBefore, SomeRuns;
  }

  lemma NothingRuns(f: Flags, s: Shards, cases: seq<Case>)
    requires s.Shard? ==> s.total > 0
    ensures Running(Filtered(f, s, cases), 0) == 0 && Taken(s, RunnableBefore(f, cases, 0)) == 0
  {
    hide Filtered;
  }

  lemma {:induction false} AllAreTaken(n: nat)
    ensures Taken(AllShards, n) == n
  {
    if n > 0 {
      AllAreTaken(n - 1);
    }
  }

  /** The part of `n` that falls to number `k` of `total`, rounded up for the first ones. */
  function PartOf(n: int, total: int, k: int): int
    requires total > 0
  {
    (n + total - 1 - k) / total
  }

  /** Each shard marks its part of what runs without sharding, the parts differing by at most one. */
  lemma ShardsBalanced(f: Flags, cases: seq<Case>, total: int, k: int)
    requires 0 <= k < total
    ensures Running(Filtered(f, Shard(total, k), cases), |cases|)
      == PartOf(Running(Filtered(f, AllShards, cases), |cases|), total, k)
  {
    hide Filtered, Running, RunnableBefore, Taken, PartOf;
    var n := RunnableBefore(f, cases, |cases|);
    RunningCases(f, Shard(total, k), cases, |cases|);
    RunningCases(f, AllShards, cases, |cases|);
    AllAreTaken(n);
    TakenIsPart(total, k, n);
  }

  lemma TakenIsPart(total: int, k: int, n: nat)
    requires 0 <= k < total
    ensures Taken(Shard(total, k), n) == PartOf(n, total, k)
  {
    hide Taken;
    TakenCount(total, k, n);
  }

  // ---- names that say something

  predicate DisabledName(name: string) {
    StartsWith(name, "DISABLED_") || Contains(name, "/DISABLED_")
  }

  predicate DeathName(name: string) {
    EndsWith(name, "DeathTest") || Contains(name, "DeathTest/")
  }

  lemma DeathIff(name: string)
    ensures IsDeath(name) <==> DeathName(name)
  {
    hide InSomeGlob, Split, StartsWith, EndsWith, Contains, InGlob;
    assert DEATH_TEST_CASE_FILTER == "*DeathTest" + ":" + "*DeathTest/*";
    assert "*DeathTest" == "*" + "DeathTest" && "*DeathTest/*" == "*" + "DeathTest/" + "*";
    TwoPatterns("*DeathTest", "*DeathTest/*", name);
    SuffixGlob("DeathTest", name);
    InfixGlob("DeathTest/", name);
  }

  lemma DisabledIff(name: string)
    ensures InSomeGlob(Split(DISABLE_TEST_FILTER, ':'), name) <==> DisabledName(name)
  {
    hide InSomeGlob, Split, StartsWith, EndsWith, Contains, InGlob;
    assert DISABLE_TEST_FILTER == "DISABLED_*" + ":" + "*/DISABLED_*";
    assert "DISABLED_*" == "DISABLED_" + "*" && "*/DISABLED_*" == "*" + "/DISABLED_" + "*";
    TwoPatterns("DISABLED_*", "*/DISABLED_*", name);
    PrefixGlob("DISABLED_", name);
    InfixGlob("/DISABLED_", name);
  }

  /**
   * Without sharding a test runs if and only if the filter selects it and neither its name nor that of its case disables
   * it, the latter only unless disabled tests are asked for, too. Its other marks say which of the two holds.
   */
  lemma RunsIff(f: Flags, cases: seq<Case>, i: nat, j: nat)
    requires i < |cases| && j < |cases[i].tests|
    ensures
      var c, t := cases[i], cases[i].tests[j];
      var disabled := DisabledName(c.name) || DisabledName(t.name);
      && |Filtered(f, AllShards, cases)[i].tests| == |c.tests|
      && (ShouldRun(f, AllShards, cases, i, j) <==>
           Selects(f.filter, c.name, t.name) && (f.alsoRunDisabled || !disabled))
      && var r := Filtered(f, AllShards, cases)[i].tests[j];
         r.name == t.name && (r.isDisabled <==> disabled) && (r.matchesFilter <==> Selects(f.filter, c.name, t.name))
  {
    hide Filtered, RunnableBefore, RunnableIn, Selects, InSomeGlob, Split, DisabledName;
    FilteredAt(f, AllShards, cases, i, j);
    DisabledIff(cases[i].name);
    DisabledIff(cases[i].tests[j].name);
  }

  /** Asking for disabled tests adds exactly the selected ones among them. */
  lemma FlagAdds(filter: string, cases: seq<Case>, i: nat, j: nat)
    requires i < |cases| && j < |cases[i].tests|
    ensures
      var c, t := cases[i].name, cases[i].tests[j].name;
      ShouldRun(Flags(filter, true), AllShards, cases, i, j) && !ShouldRun(Flags(filter, false), AllShards, cases, i, j)
      <==> Selects(filter, c, t) && (DisabledName(c) || DisabledName(t))
    ensures ShouldRun(Flags(filter, false), AllShards, cases, i, j) ==> ShouldRun(Flags(filter, true), AllShards, cases, i, j)
  {
    hide ShouldRun, Selects, DisabledName, Filtered;
    RunsIff(Flags(filter, true), cases, i, j);
    RunsIff(Flags(filter, false), cases, i, j);
  }

  /** A case is marked to run exactly if one of its tests is. */
  lemma CaseRunsIff(f: Flags, s: Shards, cases: seq<Case>, i: nat)
    requires (s.Shard? ==> s.total > 0) && i < |cases|
    ensures Filtered(f, s, cases)[i].name == cases[i].name && Filtered(f, s, cases)[i].order == cases[i].order
    ensures Filtered(f, s, cases)[i].shouldRun <==>
      exists j :: 0 <= j < |cases[i].tests| && ShouldRun(f, s, cases, i, j)
  {
    hide Verdict, RunnableBefore, Verdicts;
    var c := Filtered(f, s, cases)[i];
    assert c == FilteredCase(f, s, cases[i], RunnableBefore(f, cases, i));
    assert forall j :: 0 <= j < |cases[i].tests| ==> (ShouldRun(f, s, cases, i, j) <==> c.tests[j].shouldRun);
  }
}

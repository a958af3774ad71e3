/** The registry of tests as objects (gtest.cc, gtest-internal-inl.h), proved to do what `TestSuite` describes. */
module UnitTestImpl {
  import opened CStrings
  import opened Helpers
  import opened TestFilter
  import opened TestSuite

  class Random {
    var state: nat

    constructor (seed: nat)
      ensures state == seed
    {
      state := seed;
    }

    /** A number below `range`. */
    method Generate(range: int) returns (r: int)
      requires 0 < range <= MAX_RANGE
      modifies this
      ensures state == NextRandom(old(state)) && r == state % range
    {
      state := (1103515245 * state + 12345) % 0x1_0000_0000 % MAX_RANGE;
      return state % range;
    }
  }

  /** Fisher-Yates from the back of the range. */
  method ShuffleRange(random: Random, begin: int, end: int, v: seq<int>) returns (w: seq<int>)
    requires 0 <= begin <= end <= |v| <= INT_MAX
    modifies random
    ensures (w, random.state) == ShuffledRange(old(random.state), v, begin, end)
  {
    hide NextRandom, ShuffledRange, Swap, Pick;
    w := v;
    var rangeWidth := end - begin;
    while rangeWidth >= 2
      invariant 0 <= rangeWidth <= end - begin && |w| == |v|
      invariant ShuffledRange(random.state, w, begin, begin + rangeWidth) == ShuffledRange(old(random.state), v, begin, end)
    {
      var lastInRange := begin + rangeWidth - 1;
      ShuffleTurn(random.state, w, begin, rangeWidth);
      var selected := random.Generate(rangeWidth);
      selected := begin + selected;
      w := w[selected := w[lastInRange]][lastInRange := w[selected]];
      rangeWidth := rangeWidth - 1;
    }
    ShuffleTurn(random.state, w, begin, rangeWidth);
  }

  lemma ShuffleTurn(state: nat, v: seq<int>, begin: nat, width: nat)
    requires begin + width <= |v|
    ensures width < 2 ==> ShuffledRange(state, v, begin, begin + width) == (v, state)
    ensures width >= 2 ==>
      var next, last := NextRandom(state), begin + width - 1;
      var k := begin + next % width;
      && k <= last && ShuffledRange(state, v, begin, begin + width)
        == ShuffledRange(next, v[k := v[last]][last := v[k]], begin, begin + (width - 1))
  {
    hide NextRandom;
    if width >= 2 {
      var next := NextRandom(state);
      assert Pick(next, begin, begin + width) == begin + next % width;
    }
  }

  class TestCase {
    const name: string
    var shouldRun: bool
    var tests: seq<Test>
    var order: seq<int>

    function View(): Case
      reads this
    {
      Case(name, shouldRun, tests, order)
    }

    constructor (name: string)
      ensures View() == NewCase(name)
    {
      this.name := name;
      shouldRun, tests, order := false, [], [];
    }

    method AddTestInfo(test: string)
      modifies this
      ensures View() == AddTest(old(View()), test)
    {
      tests := tests + [NewTest(test)];
      order := order + [|order|];
    }

    method ShuffleTests(random: Random)
      requires |View().order| <= INT_MAX
      modifies this, random
      ensures (View().order, random.state) == ShuffledRange(old(random.state), old(View()).order, 0, |old(View()).order|)
      ensures View() == old(View()).(order := View().order)
    {
      order := ShuffleRange(random, 0, |order|, order);
    }

    method UnshuffleTests()
      modifies this
      ensures View() == UnshuffledCase(old(View()))
    {
      for i := 0 to |order|
        invariant |order| == |old(order)| && View() == old(View()).(order := order)
        invariant forall k :: 0 <= k < i ==> order[k] == k
      {
        order := order[i := i];
      }
      assert order == Identity(|order|);
    }

    /** The inner loop of FilterTests, from test id `id` on. */
    method FilterTests(f: Flags, s: Shards, id: nat) returns (runnable: nat, selected: nat)
      requires s.Shard? ==> s.total > 0
      modifies this
      ensures View() == FilteredCase(f, s, old(View()), id)
      ensures runnable == RunnableIn(f, old(View()), |old(tests)|)
      ensures selected == Taken(s, id + runnable) - Taken(s, id)
    {
      hide Verdict, Disabled, Chosen, Runnable, OnShard, SomeRuns, Verdicts, Taken, RunnableIn;
      ghost var c := View();
      ghost var verdicts := Verdicts(f, s, c, id);
      runnable, selected := 0, 0;
      shouldRun := false;
      NoneRuns(f, verdicts, c);
      for j := 0 to |tests|
        invariant |tests| == |c.tests| && order == c.order && shouldRun == SomeRuns(verdicts[..j])
        invariant forall k :: 0 <= k < j ==> tests[k] == verdicts[k]
        invariant forall k :: j <= k < |tests| ==> tests[k] == c.tests[k]
        invariant runnable == RunnableIn(f, c, j) && selected == Taken(s, id + runnable) - Taken(s, id)
      {
        VerdictAt(f, s, c, id, j);
        CountNext(f, s, c, j, id + runnable);
        OneMoreRuns(verdicts, j);
        var verdict, isRunnable := Judge(f, s, name, tests[j], id + runnable);
        tests := tests[j := verdict];
        if verdict.shouldRun {
          selected := selected + 1;
        }
        if isRunnable {
          runnable := runnable + 1;
        }
        shouldRun := shouldRun || verdict.shouldRun;
      }
      assert verdicts[..|tests|] == verdicts;
      assert tests == verdicts;
    }
  }

  lemma NoneRuns(f: Flags, tests: seq<Test>, c: Case)
    ensures !SomeRuns(tests[..0]) && RunnableIn(f, c, 0) == 0
  {
  }

  lemma CountNext(f: Flags, s: Shards, c: Case, j: nat, id: nat)
    requires j < |c.tests| && (s.Shard? ==> s.total > 0)
    ensures RunnableIn(f, c, j + 1) == RunnableIn(f, c, j) + if Runnable(f, c.name, c.tests[j].name) then 1 else 0
    ensures Taken(s, id + 1) == Taken(s, id) + if OnShard(s, id) then 1 else 0
  {
    hide Runnable, OnShard;
  }

  lemma OneMoreRuns(tests: seq<Test>, j: nat)
    requires j < |tests|
    ensures SomeRuns(tests[..j + 1]) <==> SomeRuns(tests[..j]) || tests[j].shouldRun
  {
    if SomeRuns(tests[..j]) {
      var k :| 0 <= k < j && tests[..j][k].shouldRun;
      assert tests[..j + 1][k].shouldRun;
    }
    if tests[j].shouldRun {
      assert tests[..j + 1][j].shouldRun;
    }
    if SomeRuns(tests[..j + 1]) && !tests[j].shouldRun {
      var k :| 0 <= k < j + 1 && tests[..j + 1][k].shouldRun;
      assert tests[..j][k].shouldRun;
    }
  }

  /** The body of the inner loop of FilterTests: what becomes of one test, and whether it counts as runnable. */
  method Judge(f: Flags, s: Shards, testCase: string, t: Test, id: nat) returns (verdict: Test, isRunnable: bool)
    requires s.Shard? ==> s.total > 0
    ensures verdict == Verdict(f, s, testCase, t, id) && (isRunnable <==> Runnable(f, testCase, t.name))
    ensures verdict.shouldRun <==> isRunnable && OnShard(s, id)
  {
    hide InSomeGlob, Split, FullName, Positive, Negative;
    var isDisabled := MatchesFilter(testCase, DISABLE_TEST_FILTER);
    if !isDisabled {
      isDisabled := MatchesFilter(t.name, DISABLE_TEST_FILTER);
    }
    var matchesFilter := FilterMatchesTest(f.filter, testCase, t.name);
    isRunnable := (f.alsoRunDisabled || !isDisabled) && matchesFilter;
    var isSelected := isRunnable && (s.AllShards? || id % s.total == s.index);
    verdict := Test(t.name, isDisabled, matchesFilter, isSelected);
  }

  class Registry {
    var testCases: seq<TestCase>
    var order: seq<int>
    var lastDeath: int

    ghost predicate Valid()
      reads this
    {
      -1 <= lastDeath < |testCases| == |order| && Distinct(testCases)
    }

    static ghost predicate Distinct(testCases: seq<TestCase>) {
      forall i, j :: 0 <= i < j < |testCases| ==> testCases[i] != testCases[j]
    }

    static ghost function Views(testCases: seq<TestCase>): (cs: seq<Case>)
      reads testCases
      ensures |cs| == |testCases| && forall i :: 0 <= i < |cs| ==> cs[i] == testCases[i].View()
    {
      seq(|testCases|, i requires 0 <= i < |testCases| reads testCases => testCases[i].View())
    }

    ghost function View(): Suite
      reads this, testCases
    {
      Suite(Views(testCases), order, lastDeath)
    }

    constructor ()
      ensures Valid() && View() == NEW_SUITE
    {
      testCases, order, lastDeath := [], [], -1;
    }

    /** find_if over the case names. */
    method Find(name: string) returns (i: nat)
      ensures i == FindCase(Views(testCases), name)
    {
      i := 0;
      while i < |testCases| && testCases[i].name != name
        invariant i <= |testCases| && forall k :: 0 <= k < i ==> testCases[k].name != name
      {
        i := i + 1;
      }
      if i < |testCases| {
        FoundAt(Views(testCases), name, i);
      } else {
        NotFound(Views(testCases), name);
      }
    }

    /** Inserts a new case in front of position `d`. */
    method Insert(d: nat, testCase: TestCase)
      requires Valid() && d <= |testCases| && testCase !in testCases
      modifies this`testCases, this`order
      ensures |testCases| == |order| == |old(testCases)| + 1
      ensures Distinct(testCases)
      ensures Views(testCases) == old(Views(testCases))[..d] + [testCase.View()] + old(Views(testCases))[d..]
      ensures order == old(order) + [|old(order)|]
      ensures testCases == old(testCases)[..d] + [testCase] + old(testCases)[d..]
    {
      testCases := testCases[..d] + [testCase] + testCases[d..];
      order := order + [|order|];
    }

    /** A new case: behind the last death test case if it is one itself, at the end otherwise. */
    method CreateTestCase(name: string) returns (testCase: TestCase, ghost d: nat)
      requires Valid()
      modifies this
      ensures Valid() && d == if IsDeath(name) then old(lastDeath) + 1 else |old(testCases)|
      ensures lastDeath == if IsDeath(name) then d else old(lastDeath)
      ensures order == old(order) + [|old(order)|]
      ensures Views(testCases) == old(Views(testCases))[..d] + [NewCase(name)] + old(Views(testCases))[d..]
      ensures testCases == old(testCases)[..d] + [testCase] + old(testCases)[d..] && fresh(testCase)
    {
      hide IsDeath, Views, Distinct, NewCase;
      testCase := new TestCase(name);
      var death := IsDeathTestCase(name);
      d := if death then lastDeath + 1 else |testCases|;
      if death {
        Insert(lastDeath + 1, testCase);
        lastDeath := lastDeath + 1;
      } else {
        Insert(|testCases|, testCase);
      }
    }

    /** Finds the case of that name or creates it. */
    method GetTestCase(name: string) returns (testCase: TestCase)
      requires Valid()
      modifies this
      ensures Valid() && View() == WithCase(old(View()), name)
      ensures CasePosition(old(View()), name) < |testCases| && testCases[CasePosition(old(View()), name)] == testCase
      ensures forall c :: c in testCases ==> c in old(testCases) || fresh(c)
    {
      hide IsDeath, FindCase, Views, WithCase, CasePosition, NewCase, Distinct;
      WithCaseParts(View(), name);
      var i := Find(name);
      if i < |testCases| {
        return testCases[i];
      }
      ghost var d;
      testCase, d := CreateTestCase(name);
    }

    method AddTestInfo(caseName: string, test: string)
      requires Valid()
      modifies this, testCases
      ensures Valid() && View() == Register(old(View()), caseName, test)
      ensures forall c :: c in testCases ==> c in old(testCases) || fresh(c)
    {
      hide WithCase, CasePosition;
      var testCase := GetTestCase(caseName);
      ghost var t := View();
      ghost var i :| 0 <= i < |testCases| && testCases[i] == testCase && i == CasePosition(old(View()), caseName);
      assert testCase in testCases;
      testCase.AddTestInfo(test);
      assert Views(testCases) == t.cases[i := AddTest(t.cases[i], test)];
    }

    /** Shuffles the tests inside each case. */
    method ShuffleCases(random: Random)
      requires Valid() && forall c :: c in testCases ==> |c.View().order| <= INT_MAX
      modifies testCases, random
      ensures (Views(testCases), random.state) == ShuffledCases(old(random.state), old(Views(testCases)), |testCases|)
    {
      hide ShuffledRange, ShuffledCases, TestCase.View;
      ghost var before, st := Views(testCases), random.state;
      CasesNext(st, before, 0);
      for i := 0 to |testCases|
        invariant random.state == ShuffledCases(st, before, i).1
        invariant forall k :: 0 <= k < i ==> testCases[k].View() == ShuffledCases(st, before, i).0[k]
        invariant forall k :: i <= k < |testCases| ==> testCases[k].View() == before[k] == ShuffledCases(st, before, i).0[k]
      {
        CasesNext(st, before, i);
        assert before[i] == testCases[i].View();
        testCases[i].ShuffleTests(random);
      }
      assert Views(testCases) == ShuffledCases(st, before, |testCases|).0;
    }

    /** Death test cases among themselves, then the others, then the tests inside each case. */
    method ShuffleTests(random: Random)
      requires Valid() && |testCases| <= INT_MAX && forall c :: c in testCases ==> |c.View().order| <= INT_MAX
      modifies this, testCases, random
      ensures Valid() && testCases == old(testCases)
      ensures (View(), random.state) == Shuffled(old(random.state), old(View()))
    {
      hide ShuffledRange, ShuffledCases, Views, Distinct, TestCase.View;
      order := ShuffleRange(random, 0, lastDeath + 1, order);
      order := ShuffleRange(random, lastDeath + 1, |testCases|, order);
      ShuffleCases(random);
    }

    method UnshuffleTests()
      requires Valid()
      modifies this, testCases
      ensures Valid() && View() == Unshuffled(old(View()))
    {
      ghost var before := Views(testCases);
      for i := 0 to |testCases|
        invariant Valid() && testCases == old(testCases) && lastDeath == old(lastDeath)
        invariant forall k :: 0 <= k < i ==> testCases[k].View() == UnshuffledCase(before[k]) && order[k] == k
        invariant forall k :: i <= k < |testCases| ==> testCases[k].View() == before[k]
      {
        testCases[i].UnshuffleTests();
        order := order[i := i];
      }
      assert order == Identity(|order|);
    }

    /** Marks the tests that run and counts them. */
    method FilterTests(f: Flags, s: Shards) returns (numSelected: nat)
      requires Valid() && (s.Shard? ==> s.total > 0)
      modifies testCases
      ensures Views(testCases) == Filtered(f, s, old(Views(testCases)))
      ensures numSelected == Taken(s, RunnableBefore(f, old(Views(testCases)), |testCases|))
    {
      hide FilteredCase, RunnableBefore, Taken, RunnableIn;
      ghost var before := Views(testCases);
      var numRunnable := 0;
      numSelected := 0;
      NothingCounted(f, s, before);
      for i := 0 to |testCases|
        invariant numRunnable == RunnableBefore(f, before, i) && numSelected == Taken(s, numRunnable)
        invariant forall k :: 0 <= k < i ==>
          testCases[k].View() == FilteredCase(f, s, before[k], RunnableBefore(f, before, k))
        invariant forall k :: i <= k < |testCases| ==> testCases[k].View() == before[k]
      {
        RunnableNext(f, before, i);
        var runnable, selected := testCases[i].FilterTests(f, s, numRunnable);
        numRunnable := numRunnable + runnable;
        numSelected := numSelected + selected;
      }
    }
  }

  lemma WithCaseParts(s: Suite, name: string)
    requires -1 <= s.lastDeath < |s.cases|
    ensures
      var d := if IsDeath(name) then s.lastDeath + 1 else |s.cases|;
      if FindCase(s.cases, name) < |s.cases| then
        WithCase(s, name) == s && CasePosition(s, name) == FindCase(s.cases, name)
      else
        && CasePosition(s, name) == d
        && WithCase(s, name) == Suite(s.cases[..d] + [NewCase(name)] + s.cases[d..], s.order + [|s.order|],
                                      if IsDeath(name) then d else s.lastDeath)
  {
    hide IsDeath, FindCase, NewCase;
    assert s.cases[..|s.cases|] + [NewCase(name)] + s.cases[|s.cases|..] == s.cases + [NewCase(name)];
  }

  lemma CasesNext(state: nat, cases: seq<Case>, n: nat)
    requires n <= |cases|
    ensures n == 0 ==> ShuffledCases(state, cases, n) == (cases, state)
    ensures n < |cases| ==>
      var (cs, st) := ShuffledCases(state, cases, n);
      var (o, next) := ShuffledRange(st, cases[n].order, 0, |cases[n].order|);
      ShuffledCases(state, cases, n + 1) == (cs[n := cases[n].(order := o)], next)
  {
    hide ShuffledRange;
  }

  method IsDeathTestCase(name: string) returns (death: bool)
    ensures death <==> IsDeath(name)
  {
    death := MatchesFilter(name, DEATH_TEST_CASE_FILTER);
  }

  lemma NothingCounted(f: Flags, s: Shards, cases: seq<Case>)
    requires s.Shard? ==> s.total > 0
    ensures RunnableBefore(f, cases, 0) == 0 && Taken(s, 0) == 0
  {
  }

  lemma RunnableNext(f: Flags, cases: seq<Case>, i: nat)
    requires i < |cases|
    ensures RunnableBefore(f, cases, i + 1)
      == RunnableBefore(f, cases, i) + RunnableIn(f, cases[i], |cases[i].tests|)
  {
    hide RunnableIn;
  }
}

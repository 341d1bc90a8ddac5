/** The registry object: test cases and their tests are kept in the order of their
    registration, death test cases first, and run in the order of index vectors
    that are shuffled in place. */
module TestRegistry {
  import opened Errors
  import opened TestFilters
  import opened TestRegistrations
  import opened TestShuffle

  lemma IdentityGrows(s: seq<int>)
    requires Order(s)
    ensures Order(s + [|s|])
    ensures s == Identity(|s|) ==> s + [|s|] == Identity(|s| + 1)
  {
    assert Identity(|s| + 1) == Identity(|s|) + [|s|];
  }

  class TestCase {
    const name: string
    var testInfoList: seq<nat>
    var testIndices: array<int>

    /** Every test has one place in the order. */
    ghost predicate Wf()
      reads this, testIndices
    {
      testIndices.Length == |testInfoList| < MAX_RANGE && Order(testIndices[..])
    }

    constructor (caseName: string)
      ensures Wf() && name == caseName && testInfoList == [] && fresh(testIndices)
    {
      name, testInfoList, testIndices := caseName, [], new int[0];
    }

    method AddTestInfo(testInfo: nat)
      requires Wf() && |testInfoList| + 1 < MAX_RANGE
      modifies this
      ensures Wf() && fresh(testIndices)
      ensures testInfoList == old(testInfoList) + [testInfo]
      ensures testIndices[..] == old(testIndices[..]) + [|old(testInfoList)|]
    {
      IdentityGrows(testIndices[..]);
      testInfoList := testInfoList + [testInfo];
      testIndices := PushBack(testIndices, testIndices.Length);
    }

    method ShuffleTests(random: Random)
      requires Wf()
      modifies random, testIndices
      ensures Wf() && multiset(testIndices[..]) == multiset(old(testIndices[..]))
      ensures (testIndices[..], random.state) == Shuffled(old(testIndices[..]), 0, |testInfoList|, old(random.state))
    {
      ghost var s := testIndices[..];
      ShuffleRange(random, 0, testIndices.Length, testIndices);
      OrderKept(s, testIndices[..]);
      assert testIndices[..] == testIndices[..][0..|s|] && s == s[0..|s|];
    }

    method UnshuffleTests()
      requires Wf()
      modifies testIndices
      ensures Wf() && testIndices[..] == Identity(|testInfoList|)
    {
      var i := 0;
      while i < testIndices.Length
        invariant i <= testIndices.Length && testIndices[..i] == Identity(testIndices.Length)[..i]
      {
        testIndices[i] := i;
        i := i + 1;
      }
      assert testIndices[..] == testIndices[..i];
      assert testIndices[..] == Identity(testIndices.Length);
      IdentityIsOrder(testIndices.Length);
    }
  }

  /** What the index vectors hold. */
  ghost function Values(vectors: seq<array<int>>): (r: seq<seq<int>>)
    reads vectors
    ensures |r| == |vectors| && forall i | 0 <= i < |r| :: r[i] == vectors[i][..]
  {
    if vectors == [] then [] else Values(vectors[..|vectors| - 1]) + [vectors[|vectors| - 1][..]]
  }

  /** Shuffling the order of each test case, one after the other, with the random
      numbers that follow; the second result is the generator's state afterwards. */
  function ShuffledEach(orders: seq<seq<int>>, state: nat): (r: (seq<seq<int>>, nat))
    ensures |r.0| == |orders|
  {
    if orders == [] then ([], state)
    else
      var n := |orders| - 1;
      var (before, next) := ShuffledEach(orders[..n], state);
      var (order, last) := Shuffled(orders[n], 0, |orders[n]|, next);
      (before + [order], last)
  }

  /** Shuffling the order of the death test cases, then that of the others, then
      the tests of each test case. */
  function ShuffledAll(indices: seq<int>, orders: seq<seq<int>>, last: int, state: nat): (seq<int>, seq<seq<int>>, nat)
    requires -1 <= last < |indices|
  {
    var (front, s1) := Shuffled(indices, 0, last + 1, state);
    var (whole, s2) := Shuffled(front, last + 1, |indices| - last - 1, s1);
    var (each, s3) := ShuffledEach(orders, s2);
    (whole, each, s3)
  }

  class UnitTestImpl {
    var testCases: seq<TestCase>
    var testCaseIndices: array<int>
    var lastDeathTestCase: int
    const random: Random
    /** The index vectors of the test cases, and the registry as a value. */
    ghost var orders: seq<array<int>>
    ghost var registry: Registry

    /** The test cases and their index vectors are objects of their own. */
    ghost predicate Apart()
      reads this, testCases
    {
      && |orders| == |testCases|
      && (forall i | 0 <= i < |testCases| :: testCases[i].testIndices == orders[i] && orders[i] != testCaseIndices)
      && (forall i, j | 0 <= i < j < |testCases| :: testCases[i] != testCases[j] && orders[i] != orders[j])
    }

    /** The objects hold what was registered. */
    ghost predicate Holds()
      reads this, testCases
    {
      && |registry.cases| == |testCases|
      && forall i | 0 <= i < |testCases| :: registry.cases[i] == Case(testCases[i].name, testCases[i].testInfoList)
    }

    /** Every test case's own order is a permutation. */
    ghost predicate CasesWf()
      reads this, testCases, orders
      requires Apart()
    {
      forall i | 0 <= i < |testCases| :: testCases[i].Wf()
    }

    /** The registry is in order, and every index vector is a permutation, that
        of the test cases with the death test cases first. */
    ghost predicate Wf()
      reads this, testCases, testCaseIndices, orders
    {
      && Apart() && Holds() && registry.last == lastDeathTestCase && Sorted(registry) && CasesWf()
      && testCaseIndices.Length == |testCases| < MAX_RANGE
      && SplitOrder(testCaseIndices[..], lastDeathTestCase + 1)
    }

    /** Every order is that of the registration. */
    ghost predicate Unshuffled()
      reads this, testCases, testCaseIndices, orders
    {
      && |orders| == |testCases|
      && testCaseIndices[..] == Identity(|testCases|)
      && forall i | 0 <= i < |testCases| :: orders[i][..] == Identity(|testCases[i].testInfoList|)
    }

    constructor (seed: nat)
      ensures Wf() && registry == EMPTY && Unshuffled()
      ensures testCases == [] && orders == [] && fresh(random) && fresh(testCaseIndices) && random.state == seed
    {
      testCases, lastDeathTestCase, orders, registry := [], -1, [], EMPTY;
      testCaseIndices := new int[0];
      random := new Random(seed);
      new;
      hide SplitOrder, Order, Sorted, Identity;
      NoIdentity();
      IdentitySplits(0, 0);
      EmptySorted();
    }

    /** The place of the test case with a name, if it was registered. */
    method Find(name: string) returns (found: Option<nat>)
      requires Holds() && Sorted(registry)
      ensures found == PlaceOf(registry.cases, name)
    {
      hide IsDeathName;
      var i := 0;
      while i < |testCases|
        invariant i <= |testCases| && forall k | 0 <= k < i :: registry.cases[k].name != name
      {
        assert registry.cases[i].name == testCases[i].name;
        if testCases[i].name == name {
          OnePlace(registry, name, i);
          return Some(i);
        }
        i := i + 1;
      }
      return None;
    }

    /** Finds the test case with a name, or registers it: a death test case behind
        the other ones, any other one at the end.  The caller must not have
        shuffled the test cases. */
    method GetTestCase(name: string) returns (testCase: TestCase, ghost k: nat)
      requires Wf() && testCaseIndices[..] == Identity(|testCases|) && |testCases| + 1 < MAX_RANGE
      modifies this
      ensures Wf() && testCaseIndices[..] == Identity(|testCases|)
      ensures registry == WithCase(old(registry), name) && PlaceOf(registry.cases, name) == Some(k)
      ensures k < |testCases| && testCases[k] == testCase
      ensures old(Unshuffled()) ==> Unshuffled()
      ensures forall i | 0 <= i < |testCases| :: testCases[i] in old(testCases) || fresh(testCases[i])
      ensures forall i | 0 <= i < |orders| :: orders[i] in old(orders) || fresh(orders[i])
      ensures testCaseIndices == old(testCaseIndices) || fresh(testCaseIndices)
    {
      hide SplitOrder, Order, Sorted, Identity;
      CaseKeepsSorted(registry, name);
      var found := Find(name);
      if found.Some? {
        return testCases[found.value], found.value;
      }
      SortedLast(registry);
      testCase, k := NewTestCase(name);
      SortedPlace(registry, name, k);
      SortedLast(registry);
      IdentitySplits(|testCases|, lastDeathTestCase + 1);
    }

    method NewTestCase(name: string) returns (testCase: TestCase, ghost k: nat)
      requires Apart() && Holds() && CasesWf() && testCaseIndices[..] == Identity(|testCases|)
      requires -1 <= registry.last < |registry.cases| && PlaceOf(registry.cases, name).None?
      requires registry.last == lastDeathTestCase
      modifies this
      ensures Apart() && Holds() && CasesWf() && testCaseIndices[..] == Identity(|testCases|)
      ensures registry.last == lastDeathTestCase
      ensures registry == WithCase(old(registry), name) && |testCases| == |old(testCases)| + 1
      ensures k < |testCases| && testCases[k] == testCase && testCase.name == name
      ensures old(Unshuffled()) ==> Unshuffled()
      ensures forall i | 0 <= i < |testCases| :: testCases[i] in old(testCases) || fresh(testCases[i])
      ensures forall i | 0 <= i < |orders| :: orders[i] in old(orders) || fresh(orders[i])
      ensures testCaseIndices == old(testCaseIndices) || fresh(testCaseIndices)
    {
      hide Order, Identity, MatchesAny, PlaceOf, Insert;
      testCase := new TestCase(name);
      var isDeath := MatchesFilter(name, DEATH_TEST_CASE_FILTER);
      var at := if isDeath then lastDeathTestCase + 1 else |testCases|;
      InsertCase(at, testCase, isDeath);
      k := at;
    }

    /** The new test case takes place `at`, the ones from there on move up. */
    method InsertCase(at: nat, testCase: TestCase, isDeath: bool)
      requires at <= |testCases| && Apart() && Holds() && CasesWf()
      requires testCaseIndices[..] == Identity(|testCases|) && testCaseIndices != testCase.testIndices
      requires testCase !in testCases && testCase.testIndices !in orders
      requires testCase.Wf() && testCase.testInfoList == []
      requires registry.last == lastDeathTestCase && (isDeath ==> at == lastDeathTestCase + 1)
      modifies `testCases, `testCaseIndices, `lastDeathTestCase, `orders, `registry
      ensures Apart() && Holds() && CasesWf() && testCaseIndices[..] == Identity(|testCases|)
      ensures registry.last == lastDeathTestCase
      ensures registry == Registry(Insert(old(registry).cases, at, Case(testCase.name, [])),
                                   if isDeath then at else old(registry).last)
      ensures testCases[at] == testCase && |testCases| == |old(testCases)| + 1
      ensures old(Unshuffled()) ==> Unshuffled()
      ensures fresh(testCaseIndices)
      ensures forall i | 0 <= i < |testCases| :: testCases[i] in old(testCases) + [testCase]
      ensures forall i | 0 <= i < |orders| :: orders[i] in old(orders) + [testCase.testIndices]
    {
      hide Identity, Order, Insert;
      InsertApart(testCases, orders, at, testCase);
      InsertHolds(registry.cases, testCases, at, testCase);
      InsertWf(testCases, orders, at, testCase);
      AppendIndex();
      Enlist(at, testCase, isDeath);
    }

    method AppendIndex()
      requires testCaseIndices[..] == Identity(|testCases|)
      modifies `testCaseIndices
      ensures fresh(testCaseIndices) && testCaseIndices[..] == Identity(|testCases| + 1)
    {
      hide Identity, Order;
      IdentityIsOrder(testCaseIndices.Length);
      IdentityGrows(testCaseIndices[..]);
      testCaseIndices := PushBack(testCaseIndices, testCaseIndices.Length);
    }

    method Enlist(at: nat, testCase: TestCase, isDeath: bool)
      requires at <= |testCases| == |orders| == |registry.cases|
      requires registry.last == lastDeathTestCase && (isDeath ==> at == lastDeathTestCase + 1)
      modifies `testCases, `lastDeathTestCase, `orders, `registry
      ensures testCases == Insert(old(testCases), at, testCase)
      ensures orders == Insert(old(orders), at, testCase.testIndices)
      ensures registry == Registry(Insert(old(registry).cases, at, Case(testCase.name, [])), lastDeathTestCase)
      ensures lastDeathTestCase == if isDeath then at else old(lastDeathTestCase)
    {
      if isDeath {
        lastDeathTestCase := lastDeathTestCase + 1;
      }
      testCases := Insert(testCases, at, testCase);
      orders := Insert(orders, at, testCase.testIndices);
      registry := Registry(Insert(registry.cases, at, Case(testCase.name, [])), lastDeathTestCase);
    }

    /** Registers a test with its test case. */
    method AddTestInfo(name: string, testInfo: nat)
      requires Wf() && testCaseIndices[..] == Identity(|testCases|) && |testCases| + 1 < MAX_RANGE
      requires TestsFit(registry.cases, MAX_RANGE - 2)
      modifies this, testCases
      ensures Wf() && testCaseIndices[..] == Identity(|testCases|)
      ensures registry == Register(old(registry), name, testInfo)
      ensures old(Unshuffled()) ==> Unshuffled()
      ensures forall i | 0 <= i < |testCases| :: testCases[i] in old(testCases) || fresh(testCases[i])
      ensures forall i | 0 <= i < |orders| :: orders[i] in old(orders) || fresh(orders[i])
      ensures testCaseIndices == old(testCaseIndices) || fresh(testCaseIndices)
    {
      hide SplitOrder, Order, Sorted, Identity, WithCase;
      RegisterKeepsSorted(registry, name, testInfo);
      SortedLast(registry);
      CaseFits(registry, name, MAX_RANGE - 2);
      var testCase, k := GetTestCase(name);
      Append(testCase, k, testInfo);
    }

    /** The test goes into its test case, which has place `k`. */
    method Append(testCase: TestCase, ghost k: nat, testInfo: nat)
      requires Apart() && Holds() && CasesWf() && k < |testCases| && testCases[k] == testCase
      requires |registry.cases[k].tests| + 1 < MAX_RANGE
      modifies `orders, `registry, testCase
      ensures Apart() && Holds() && CasesWf()
      ensures registry == old(registry).(cases := AddTo(old(registry).cases, k, testInfo))
      ensures fresh(orders[k]) && orders == old(orders)[k := orders[k]]
      ensures old(Unshuffled()) ==> Unshuffled()
    {
      hide Order, Identity;
      IdentityGrows(testCase.testIndices[..]);
      testCase.AddTestInfo(testInfo);
      orders := orders[k := testCase.testIndices];
      registry := registry.(cases := AddTo(registry.cases, k, testInfo));
    }

    /** Shuffles the death test cases among themselves, then the others, then the
        tests of each test case; what is registered stays. */
    method ShuffleTests()
      requires Wf()
      modifies random, testCaseIndices, orders
      ensures Wf() && |old(testCaseIndices[..])| == |testCases| > lastDeathTestCase
      ensures (testCaseIndices[..], Values(orders), random.state)
           == ShuffledAll(old(testCaseIndices[..]), old(Values(orders)), lastDeathTestCase, old(random.state))
    {
      hide Order, Sorted, SplitOrder, Shuffled, ShuffledEach, Wf, Values;
      ShuffleDeathTestCases();
      ShuffleOtherTestCases();
      ShuffleCases();
    }

    method ShuffleDeathTestCases()
      requires Wf()
      modifies random, testCaseIndices
      ensures Wf() && -1 <= lastDeathTestCase < |testCases| == |old(testCaseIndices[..])|
      ensures (testCaseIndices[..], random.state)
           == Shuffled(old(testCaseIndices[..]), 0, lastDeathTestCase + 1, old(random.state))
      ensures Values(orders) == old(Values(orders))
    {
      hide Order, Sorted, SplitOrder, Shuffled;
      SortedLast(registry);
      ghost var s := testCaseIndices[..];
      ShuffleRange(random, 0, lastDeathTestCase + 1, testCaseIndices);
      ShuffleFront(s, testCaseIndices[..], lastDeathTestCase + 1);
    }

    method ShuffleOtherTestCases()
      requires Wf()
      modifies random, testCaseIndices
      ensures Wf() && -1 <= lastDeathTestCase < |testCases| == |old(testCaseIndices[..])|
      ensures (testCaseIndices[..], random.state)
           == Shuffled(old(testCaseIndices[..]), lastDeathTestCase + 1, |testCases| - lastDeathTestCase - 1, old(random.state))
      ensures Values(orders) == old(Values(orders))
    {
      hide Order, Sorted, SplitOrder, Shuffled;
      SortedLast(registry);
      ghost var s := testCaseIndices[..];
      ShuffleRange(random, lastDeathTestCase + 1, |testCases|, testCaseIndices);
      ShuffleBack(s, testCaseIndices[..], lastDeathTestCase + 1);
    }

    method ShuffleCase(i: nat)
      requires Wf() && i < |testCases| == |orders|
      modifies random, orders[i]
      ensures Wf() && (orders[i][..], random.state) == Shuffled(old(orders[i][..]), 0, |old(orders[i][..])|, old(random.state))
      ensures forall k | 0 <= k < |testCases| && k != i :: orders[k][..] == old(orders[k][..])
      ensures testCaseIndices[..] == old(testCaseIndices[..])
    {
      hide SplitOrder, Order, Sorted, Shuffled;
      testCases[i].ShuffleTests(random);
    }

    method ShuffleCases()
      requires Wf()
      modifies random, orders
      ensures Wf() && (Values(orders), random.state) == ShuffledEach(old(Values(orders)), old(random.state))
      ensures testCaseIndices[..] == old(testCaseIndices[..])
    {
      hide SplitOrder, Order, Sorted, Shuffled, ShuffledEach;
      ghost var was := Values(orders);
      var i := 0;
      EachNone(was, random.state);
      while i < |testCases|
        invariant i <= |testCases| == |was| && Wf()
        invariant forall k | i <= k < |testCases| :: orders[k][..] == was[k]
        invariant forall k | 0 <= k < i :: orders[k][..] == ShuffledEach(was[..i], old(random.state)).0[k]
        invariant random.state == ShuffledEach(was[..i], old(random.state)).1
        invariant testCaseIndices[..] == old(testCaseIndices[..])
      {
        EachNext(was, i, old(random.state));
        ShuffleCase(i);
        i := i + 1;
      }
      assert was[..i] == was;
      EachLength(was, old(random.state));
      assert Values(orders) == ShuffledEach(was, old(random.state)).0;
    }

    /** Restores the order of registration, of the test cases and in each one. */
    method UnshuffleTests()
      requires Wf()
      modifies testCaseIndices, orders
      ensures Wf() && Unshuffled()
    {
      hide SplitOrder, Order, Sorted;
      var i := 0;
      while i < |testCases|
        invariant i <= |testCases| && Apart() && Holds() && CasesWf()
        invariant testCaseIndices[..i] == Identity(|testCases|)[..i]
        invariant forall k | 0 <= k < i :: orders[k][..] == Identity(|testCases[k].testInfoList|)
      {
        testCases[i].UnshuffleTests();
        testCaseIndices[i] := i;
        i := i + 1;
      }
      assert testCaseIndices[..] == testCaseIndices[..i] && Identity(|testCases|) == Identity(|testCases|)[..i];
      SortedLast(registry);
      IdentitySplits(|testCases|, lastDeathTestCase + 1);
    }

    /** The test case that runs at a place of the order. */
    method GetMutableTestCase(i: nat) returns (testCase: TestCase)
      requires Wf() && i < |testCases|
      ensures testCase in testCases
      ensures IsDeathName(testCase.name) <==> i <= lastDeathTestCase
    {
      hide IsDeathName;
      SortedLast(registry);
      SplitMembers(testCaseIndices[..], lastDeathTestCase + 1, i);
      assert testCaseIndices[..][i] == testCaseIndices[i];
      testCase := testCases[testCaseIndices[i]];
      assert registry.cases[testCaseIndices[i]].name == testCase.name;
    }
  }

  lemma EachLength(orders: seq<seq<int>>, state: nat)
    ensures |ShuffledEach(orders, state).0| == |orders|
  {
  }

  lemma EachNone(orders: seq<seq<int>>, state: nat)
    ensures ShuffledEach(orders[..0], state) == ([], state)
  {
  }

  lemma EachNext(orders: seq<seq<int>>, i: nat, state: nat)
    requires i < |orders|
    ensures var (before, next) := ShuffledEach(orders[..i], state);
            var (order, last) := Shuffled(orders[i], 0, |orders[i]|, next);
            |before| == i && ShuffledEach(orders[..i + 1], state) == (before + [order], last)
  {
    assert orders[..i + 1][..i] == orders[..i];
  }

  // ----- whole sequences of registrations

  /** Registers tests with an empty registry, one by one. */
  method RegisterTests(registrations: seq<Registration>, seed: nat) returns (u: UnitTestImpl)
    requires |registrations| < MAX_RANGE - 1
    ensures u.Wf() && u.Unshuffled() && u.registry == RegisterAll(registrations)
    ensures fresh(u) && fresh(u.random) && fresh(u.testCaseIndices) && u.random.state == seed
    ensures forall i | 0 <= i < |u.orders| :: fresh(u.orders[i])
  {
    hide SplitOrder, Order, Sorted, Identity, Register;
    u := new UnitTestImpl(seed);
    var n := 0;
    assert registrations[..0] == [];
    while n < |registrations|
      invariant n <= |registrations| && u.Wf() && u.Unshuffled() && u.registry == RegisterAll(registrations[..n])
      invariant fresh(u) && fresh(u.random) && fresh(u.testCaseIndices) && u.random.state == seed
      invariant forall i | 0 <= i < |u.testCases| :: fresh(u.testCases[i])
      invariant forall i | 0 <= i < |u.orders| :: fresh(u.orders[i])
    {
      AllFit(registrations[..n]);
      u.AddTestInfo(registrations[n].name, registrations[n].test);
      assert registrations[..n + 1][..n] == registrations[..n];
      n := n + 1;
    }
    assert registrations[..n] == registrations;
  }

  /** The orders of the tests of each test case as they were registered. */
  function RegisteredOrders(cases: seq<Case>): (r: seq<seq<int>>)
    ensures |r| == |cases| && forall i | 0 <= i < |r| :: r[i] == Identity(|cases[i].tests|)
  {
    seq(|cases|, i requires 0 <= i < |cases| => Identity(|cases[i].tests|))
  }

  /** A new registry's orders are those of the registration. */
  lemma AsRegistered(u: UnitTestImpl)
    requires u.Wf() && u.Unshuffled()
    ensures Values(u.orders) == RegisteredOrders(u.registry.cases) && |u.registry.cases| == |u.testCases|
  {
    hide SplitOrder, Order, Sorted, Identity;
    var n := |u.testCases|;
    forall i | 0 <= i < n ensures Values(u.orders)[i] == RegisteredOrders(u.registry.cases)[i] {
      assert u.registry.cases[i] == Case(u.testCases[i].name, u.testCases[i].testInfoList);
    }
  }

  /** Whatever tests are registered and whatever the seed is: after a shuffle the
      registry holds exactly them, and every order is a permutation, that of the
      test cases with the death test cases first; and the orders are those that the
      seed's random numbers make of the orders of registration. */
  method ShuffledTests(registrations: seq<Registration>, seed: nat) returns (u: UnitTestImpl)
    requires |registrations| < MAX_RANGE - 1
    ensures u.registry == RegisterAll(registrations) && Sorted(u.registry)
    ensures |u.testCases| == |u.registry.cases| == u.testCaseIndices.Length
    ensures SplitOrder(u.testCaseIndices[..], u.registry.last + 1)
    ensures forall i | 0 <= i < |u.testCases| ::
              && u.registry.cases[i] == Case(u.testCases[i].name, u.testCases[i].testInfoList)
              && u.testCases[i].testIndices.Length == |u.testCases[i].testInfoList|
              && Order(u.testCases[i].testIndices[..])
    ensures var r := RegisterAll(registrations);
            (u.testCaseIndices[..], Values(u.orders), u.random.state)
              == ShuffledAll(Identity(|r.cases|), RegisteredOrders(r.cases), r.last, seed)
    ensures forall i | 0 <= i < |u.testCases| :: u.testCases[i].testIndices[..] == Values(u.orders)[i]
    ensures u.Wf() && fresh(u) && fresh(u.testCaseIndices) && forall i | 0 <= i < |u.orders| :: fresh(u.orders[i])
  {
    hide SplitOrder, Order, Sorted, Identity, ShuffledAll, RegisterAll;
    u := RegisterTests(registrations, seed);
    AsRegistered(u);
    SortedLast(u.registry);
    u.ShuffleTests();
    WfMeans(u);
  }

  lemma WfMeans(u: UnitTestImpl)
    requires u.Wf()
    ensures Sorted(u.registry) && |u.testCases| == |u.registry.cases| == u.testCaseIndices.Length == |u.orders|
    ensures SplitOrder(u.testCaseIndices[..], u.registry.last + 1)
    ensures forall i | 0 <= i < |u.testCases| ::
              && u.registry.cases[i] == Case(u.testCases[i].name, u.testCases[i].testInfoList)
              && u.testCases[i].testIndices.Length == |u.testCases[i].testInfoList|
              && Order(u.testCases[i].testIndices[..])
    ensures forall i | 0 <= i < |u.testCases| :: u.testCases[i].testIndices[..] == Values(u.orders)[i]
  {
    hide SplitOrder, Order, Sorted;
  }

  /** Unshuffling afterwards gives back the order of the registration, of the test
      cases and of the tests in each. */
  method RestoredTests(registrations: seq<Registration>, seed: nat) returns (u: UnitTestImpl)
    requires |registrations| < MAX_RANGE - 1
    ensures u.registry == RegisterAll(registrations) && u.Wf()
    ensures u.testCaseIndices[..] == Identity(|u.testCases|)
    ensures forall i | 0 <= i < |u.testCases| ::
              u.testCases[i].testIndices[..] == Identity(|u.testCases[i].testInfoList|)
  {
    hide SplitOrder, Order, Sorted, Identity;
    u := ShuffledTests(registrations, seed);
    u.UnshuffleTests();
  }

  /** In any order a shuffle can leave, every death test case runs before any other
      one, and each test case has its turn. */
  lemma DeathTestsRunFirst(r: Registry, indices: seq<int>, i: nat, j: nat)
    requires Sorted(r) && |indices| == |r.cases| && SplitOrder(indices, r.last + 1)
    requires i < |r.cases| && j < |r.cases|
    ensures 0 <= indices[i] < |r.cases| && 0 <= indices[j] < |r.cases|
    ensures IsDeathName(r.cases[indices[i]].name) && !IsDeathName(r.cases[indices[j]].name) ==> i < j
    ensures Order(indices)
  {
    hide IsDeathName;
    SplitMembers(indices, r.last + 1, i);
    SplitMembers(indices, r.last + 1, j);
    SplitIsOrder(indices, r.last + 1);
  }

  lemma NoIdentity()
    ensures Identity(0) == []
  {
  }

  lemma EmptySorted()
    ensures Sorted(EMPTY)
  {
  }

  lemma InsertHolds(cases: seq<Case>, testCases: seq<TestCase>, at: nat, c: TestCase)
    requires at <= |cases| == |testCases| && c.testInfoList == []
    requires forall i | 0 <= i < |cases| :: cases[i] == Case(testCases[i].name, testCases[i].testInfoList)
    ensures var r, q := Insert(cases, at, Case(c.name, [])), Insert(testCases, at, c);
            q[at] == c && forall i | 0 <= i < |r| :: r[i] == Case(q[i].name, q[i].testInfoList)
  {
  }

  lemma InsertApart(testCases: seq<TestCase>, orders: seq<array<int>>, at: nat, c: TestCase)
    requires at <= |testCases| == |orders| && c !in testCases && c.testIndices !in orders
    requires forall i | 0 <= i < |testCases| :: testCases[i].testIndices == orders[i]
    requires forall i, j | 0 <= i < j < |testCases| :: testCases[i] != testCases[j] && orders[i] != orders[j]
    ensures var q, o := Insert(testCases, at, c), Insert(orders, at, c.testIndices);
            && |q| == |o| == |testCases| + 1 && q[at] == c
            && (forall i | 0 <= i < |q| :: q[i].testIndices == o[i] && o[i] in orders + [c.testIndices])
            && forall i, j | 0 <= i < j < |q| :: q[i] != q[j] && o[i] != o[j]
  {
  }

  lemma InsertWf(testCases: seq<TestCase>, orders: seq<array<int>>, at: nat, c: TestCase)
    requires at <= |testCases| == |orders| && c.Wf() && c.testInfoList == []
    requires forall i | 0 <= i < |testCases| :: testCases[i].Wf()
    ensures var q := Insert(testCases, at, c); forall i | 0 <= i < |q| :: q[i].Wf()
    ensures var q, o := Insert(testCases, at, c), Insert(orders, at, c.testIndices);
            (forall i | 0 <= i < |testCases| :: orders[i][..] == Identity(|testCases[i].testInfoList|)) ==>
              forall i | 0 <= i < |q| :: o[i][..] == Identity(|q[i].testInfoList|)
    ensures forall i | 0 <= i < |Insert(testCases, at, c)| :: Insert(testCases, at, c)[i] in testCases + [c]
    ensures forall i | 0 <= i < |Insert(orders, at, c.testIndices)| ::
              Insert(orders, at, c.testIndices)[i] in orders + [c.testIndices]
  {
    hide Order;
    assert c.testIndices[..] == Identity(0);
  }

  lemma IdentityIsOrder(n: nat)
    ensures Order(Identity(n))
  {
  }

  lemma IdentitySplits(n: nat, d: nat)
    requires d <= n
    ensures SplitOrder(Identity(n), d)
  {
  }
}

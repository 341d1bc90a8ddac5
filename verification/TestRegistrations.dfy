/** What a sequence of registrations leaves behind: the test cases in their
    order, and in each one its tests in the order they were registered. */
module TestRegistrations {
  import opened Errors
  import opened TestFilters

  /** A test case as a value. */
  datatype Case = Case(name: string, tests: seq<nat>)

  /** A test to register, and the name of its test case. */
  datatype Registration = Registration(name: string, test: nat)

  /** The test cases; those up to `last` are death test cases. */
  datatype Registry = Registry(cases: seq<Case>, last: int)

  const EMPTY := Registry([], -1)

  /** The place of the test case with a name. */
  function PlaceOf(cases: seq<Case>, name: string): (k: Option<nat>)
    ensures k.Some? ==> k.value < |cases| && cases[k.value].name == name
    ensures k.None? ==> forall i | 0 <= i < |cases| :: cases[i].name != name
  {
    if cases == [] then None
    else if cases[|cases| - 1].name == name then Some(|cases| - 1)
    else PlaceOf(cases[..|cases| - 1], name)
  }

  function Insert<T>(s: seq<T>, at: nat, x: T): (r: seq<T>)
    requires at <= |s|
    ensures |r| == |s| + 1
    ensures forall i | 0 <= i < |r| :: r[i] == if i < at then s[i] else if i == at then x else s[i - 1]
  {
    s[..at] + [x] + s[at..]
  }

  /** The registry in which the test case exists: a new death test case goes
      behind the others of its kind, any other new one to the end. */
  function WithCase(r: Registry, name: string): (e: Registry)
    requires -1 <= r.last < |r.cases|
    ensures -1 <= e.last < |e.cases|
  {
    if PlaceOf(r.cases, name).Some? then r
    else if MatchesAny(name, DEATH_TEST_CASE_FILTER) then
      Registry(Insert(r.cases, r.last + 1, Case(name, [])), r.last + 1)
    else Registry(Insert(r.cases, |r.cases|, Case(name, [])), r.last)
  }

  function AddTo(cases: seq<Case>, k: nat, test: nat): seq<Case>
    requires k < |cases|
  {
    cases[k := cases[k].(tests := cases[k].tests + [test])]
  }

  function Register(r: Registry, name: string, test: nat): (q: Registry)
    requires -1 <= r.last < |r.cases|
    ensures -1 <= q.last < |q.cases|
  {
    var e := WithCase(r, name);
    match PlaceOf(e.cases, name)
    case None => e
    case Some(k) => e.(cases := AddTo(e.cases, k, test))
  }

  // ----- what every registration keeps

  /** The death test cases are exactly the first ones, and no two test cases have
      the same name. */
  ghost predicate Sorted(r: Registry) {
    && -1 <= r.last < |r.cases|
    && (forall i | 0 <= i < |r.cases| :: IsDeathName(r.cases[i].name) <==> i <= r.last)
    && Distinct(r.cases)
  }

  predicate Distinct(cases: seq<Case>) {
    forall i, j | 0 <= i < j < |cases| :: cases[i].name != cases[j].name
  }

  lemma NotThere(cases: seq<Case>, name: string)
    requires PlaceOf(cases, name).None?
    ensures forall i | 0 <= i < |cases| :: cases[i].name != name
  {
  }

  lemma InsertKeepsDistinct(cases: seq<Case>, at: nat, c: Case)
    requires at <= |cases| && Distinct(cases) && forall i | 0 <= i < |cases| :: cases[i].name != c.name
    ensures Distinct(Insert(cases, at, c))
  {
    var r := Insert(cases, at, c);
    forall i, j | 0 <= i < j < |r| ensures r[i].name != r[j].name {
      assert i < at ==> r[i] == cases[i];
      assert i > at ==> r[i] == cases[i - 1];
      assert j < at ==> r[j] == cases[j];
      assert j > at ==> r[j] == cases[j - 1];
    }
  }

  lemma InsertKeepsSorted(r: Registry, name: string)
    requires Sorted(r) && PlaceOf(r.cases, name).None?
    ensures if IsDeathName(name) then Sorted(Registry(Insert(r.cases, r.last + 1, Case(name, [])), r.last + 1))
            else Sorted(Registry(Insert(r.cases, |r.cases|, Case(name, [])), r.last))
  {
    hide IsDeathName, Distinct, PlaceOf;
    NotThere(r.cases, name);
    InsertKeepsDistinct(r.cases, if IsDeathName(name) then r.last + 1 else |r.cases|, Case(name, []));
  }

  lemma InsertedIsThere(cases: seq<Case>, at: nat, name: string)
    requires at <= |cases|
    ensures PlaceOf(Insert(cases, at, Case(name, [])), name).Some?
  {
    assert Insert(cases, at, Case(name, []))[at].name == name;
  }

  lemma CaseKeepsSorted(r: Registry, name: string)
    requires Sorted(r)
    ensures Sorted(WithCase(r, name)) && PlaceOf(WithCase(r, name).cases, name).Some?
  {
    hide IsDeathName, MatchesAny, PlaceOf;
    DeathTestFilter(name);
    if PlaceOf(r.cases, name).None? {
      InsertKeepsSorted(r, name);
      InsertedIsThere(r.cases, if IsDeathName(name) then r.last + 1 else |r.cases|, name);
    }
  }

  lemma RegisterKeepsSorted(r: Registry, name: string, test: nat)
    requires Sorted(r)
    ensures Sorted(Register(r, name, test))
  {
    hide IsDeathName, WithCase;
    CaseKeepsSorted(r, name);
  }

  function TestsNamed(r: Registry, name: string): seq<nat> {
    match PlaceOf(r.cases, name)
    case None => []
    case Some(k) => r.cases[k].tests
  }

  lemma OnePlace(r: Registry, name: string, k: nat)
    requires Sorted(r) && k < |r.cases| && r.cases[k].name == name
    ensures PlaceOf(r.cases, name) == Some(k)
  {
  }

  lemma SortedPlace(r: Registry, name: string, k: nat)
    requires Sorted(r) && k < |r.cases| && r.cases[k].name == name
    ensures PlaceOf(r.cases, name) == Some(k)
  {
    hide IsDeathName;
    OnePlace(r, name, k);
  }

  lemma SortedLast(r: Registry)
    requires Sorted(r)
    ensures -1 <= r.last < |r.cases|
  {
  }

  /** A new test case has no test, and every other one has the tests it had. */
  lemma CaseKeepsTests(r: Registry, name: string, other: string)
    requires Sorted(r)
    ensures TestsNamed(WithCase(r, name), other) == TestsNamed(r, other)
    ensures PlaceOf(WithCase(r, name).cases, other).Some? <==> other == name || PlaceOf(r.cases, other).Some?
  {
    hide IsDeathName, MatchesAny;
    var e := WithCase(r, name);
    CaseKeepsSorted(r, name);
    if e != r {
      var at := InsertedAt(r, name);
      if PlaceOf(r.cases, other).Some? {
        var k := PlaceOf(r.cases, other).value;
        var j := if k < at then k else k + 1;
        assert e.cases[j] == r.cases[k];
        OnePlace(e, other, j);
      } else if other == name {
        OnePlace(e, other, at);
      } else if PlaceOf(e.cases, other).Some? {
        NotInserted(r, name, other, PlaceOf(e.cases, other).value);
      }
    }
  }

  function InsertedAt(r: Registry, name: string): (at: nat)
    requires Sorted(r) && PlaceOf(r.cases, name).None?
    ensures at <= |r.cases| && WithCase(r, name).cases == Insert(r.cases, at, Case(name, []))
  {
    if MatchesAny(name, DEATH_TEST_CASE_FILTER) then r.last + 1 else |r.cases|
  }

  lemma NotInserted(r: Registry, name: string, other: string, j: nat)
    requires Sorted(r) && PlaceOf(r.cases, name).None? && other != name
    requires j < |WithCase(r, name).cases| && WithCase(r, name).cases[j].name == other
    ensures PlaceOf(r.cases, other).Some?
  {
    hide IsDeathName, MatchesAny;
    var at := InsertedAt(r, name);
    assert j != at;
    assert r.cases[if j < at then j else j - 1].name == other;
  }

  /** The test is added to its test case, behind the tests there, and to no other
      one. */
  lemma RegisterAddsTest(r: Registry, name: string, test: nat, other: string)
    requires Sorted(r)
    ensures TestsNamed(Register(r, name, test), other)
         == TestsNamed(r, other) + if other == name then [test] else []
    ensures PlaceOf(Register(r, name, test).cases, other).Some? <==> other == name || PlaceOf(r.cases, other).Some?
  {
    hide IsDeathName, WithCase;
    var e, q := WithCase(r, name), Register(r, name, test);
    CaseKeepsSorted(r, name);
    CaseKeepsTests(r, name, other);
    RegisterKeepsSorted(r, name, test);
    var k := PlaceOf(e.cases, name).value;
    SameNames(e, q, other);
    if other == name {
      OnePlace(q, name, k);
    }
  }

  lemma SameNames(e: Registry, q: Registry, other: string)
    requires Sorted(e) && Sorted(q) && |e.cases| == |q.cases|
    requires forall i | 0 <= i < |e.cases| :: e.cases[i].name == q.cases[i].name
    ensures PlaceOf(q.cases, other) == PlaceOf(e.cases, other)
  {
    hide IsDeathName;
    if PlaceOf(e.cases, other).Some? {
      OnePlace(q, other, PlaceOf(e.cases, other).value);
    }
  }

  // ----- whole sequences of registrations

  function RegisterAll(registrations: seq<Registration>): (r: Registry)
    ensures -1 <= r.last < |r.cases|
  {
    if registrations == [] then EMPTY
    else
      var n := |registrations| - 1;
      Register(RegisterAll(registrations[..n]), registrations[n].name, registrations[n].test)
  }

  /** The tests registered for a test case, in order. */
  function TestsFor(registrations: seq<Registration>, name: string): seq<nat> {
    if registrations == [] then []
    else
      var n := |registrations| - 1;
      TestsFor(registrations[..n], name) + if registrations[n].name == name then [registrations[n].test] else []
  }

  predicate Mentions(registrations: seq<Registration>, name: string) {
    exists i | 0 <= i < |registrations| :: registrations[i].name == name
  }

  lemma NothingMentioned(name: string)
    ensures !Mentions([], name) && PlaceOf([], name).None? && TestsNamed(EMPTY, name) == []
  {
  }

  lemma MentionsGrows(registrations: seq<Registration>, name: string)
    requires registrations != []
    ensures var n := |registrations| - 1;
            Mentions(registrations, name) <==> registrations[n].name == name || Mentions(registrations[..n], name)
  {
    var n := |registrations| - 1;
    if i :| 0 <= i < n && registrations[i].name == name {
      assert registrations[..n][i].name == name;
    }
  }

  /** Whatever is registered, in whatever order: the death test cases are exactly
      the first ones, no two have the same name, there is one for each name that
      was mentioned and no other, and it has exactly the tests that were
      registered for it, in their order. */
  lemma {:induction false} EveryRegistration(registrations: seq<Registration>, name: string)
    ensures var r := RegisterAll(registrations);
            && Sorted(r)
            && (PlaceOf(r.cases, name).Some? <==> Mentions(registrations, name))
            && TestsNamed(r, name) == TestsFor(registrations, name)
  {
    hide IsDeathName, Register, Mentions, PlaceOf;
    if registrations == [] {
      assert !Mentions([], name) && PlaceOf([], name).None? by { NothingMentioned(name); }
    } else {
      var n := |registrations| - 1;
      var rest, g := registrations[..n], registrations[n];
      EveryRegistration(rest, name);
      RegisterKeepsSorted(RegisterAll(rest), g.name, g.test);
      RegisterAddsTest(RegisterAll(rest), g.name, g.test, name);
      MentionsGrows(registrations, name);
    }
  }

  // ----- the order of the test cases

  function Names(cases: seq<Case>): (r: seq<string>)
    ensures |r| == |cases| && forall i | 0 <= i < |r| :: r[i] == cases[i].name
  {
    seq(|cases|, i requires 0 <= i < |cases| => cases[i].name)
  }

  /** The names of a sequence of registrations, each where it comes first. */
  function Mentioned(registrations: seq<Registration>): seq<string> {
    if registrations == [] then []
    else
      var n := |registrations| - 1;
      var names := Mentioned(registrations[..n]);
      if registrations[n].name in names then names else names + [registrations[n].name]
  }

  /** Those of one kind, in the same order. */
  ghost function OfKind(names: seq<string>, death: bool): seq<string> {
    if names == [] then []
    else
      var n := |names| - 1;
      OfKind(names[..n], death) + if IsDeathName(names[n]) == death then [names[n]] else []
  }

  lemma OfKindAdds(names: seq<string>, name: string, death: bool)
    ensures OfKind(names + [name], death) == OfKind(names, death) + if IsDeathName(name) == death then [name] else []
  {
    hide IsDeathName;
    assert (names + [name])[..|names|] == names;
  }

  lemma {:induction false} MentionedMeans(registrations: seq<Registration>, name: string)
    ensures name in Mentioned(registrations) <==> Mentions(registrations, name)
  {
    if registrations != [] {
      MentionedMeans(registrations[..|registrations| - 1], name);
      MentionsGrows(registrations, name);
    }
  }

  /** The death test cases come in the order in which they were first mentioned,
      and so do the others behind them. */
  ghost predicate InOrder(r: Registry, names: seq<string>) {
    Names(r.cases) == OfKind(names, true) + OfKind(names, false) && r.last + 1 == |OfKind(names, true)|
  }

  lemma InsertInOrder(r: Registry, names: seq<string>, name: string)
    requires Sorted(r) && InOrder(r, names) && PlaceOf(r.cases, name).None?
    ensures InOrder(WithCase(r, name), names + [name])
  {
    hide IsDeathName, MatchesAny, OfKind;
    DeathTestFilter(name);
    OfKindAdds(names, name, true);
    OfKindAdds(names, name, false);
    var d, o := OfKind(names, true), OfKind(names, false);
    var e := WithCase(r, name);
    if IsDeathName(name) {
      InsertedNames(r.cases, r.last + 1, name);
      assert (d + o)[..|d|] == d && (d + o)[|d|..] == o && o + [] == o;
    } else {
      InsertedNames(r.cases, |r.cases|, name);
      assert (d + o)[..|d + o|] == d + o && (d + o)[|d + o|..] == [] && d + [] == d;
      assert (d + o) + [name] + [] == d + (o + [name]);
    }
  }

  lemma InsertedNames(cases: seq<Case>, at: nat, name: string)
    requires at <= |cases|
    ensures Names(Insert(cases, at, Case(name, []))) == Names(cases)[..at] + [name] + Names(cases)[at..]
  {
  }

  lemma AddKeepsNames(cases: seq<Case>, k: nat, test: nat)
    requires k < |cases|
    ensures Names(AddTo(cases, k, test)) == Names(cases)
  {
  }

  lemma {:induction false} CasesInOrder(registrations: seq<Registration>)
    ensures InOrder(RegisterAll(registrations), Mentioned(registrations))
  {
    hide IsDeathName, WithCase, InOrder, Mentions, PlaceOf, OfKind;
    if registrations == [] {
      assert InOrder(EMPTY, []) by { EmptyInOrder(); }
    } else {
      var n := |registrations| - 1;
      var rest, g := registrations[..n], registrations[n];
      CasesInOrder(rest);
      EveryRegistration(rest, g.name);
      MentionedMeans(rest, g.name);
      var r := RegisterAll(rest);
      CaseKeepsSorted(r, g.name);
      if PlaceOf(r.cases, g.name).None? {
        InsertInOrder(r, Mentioned(rest), g.name);
      } else {
        SameCase(r, g.name);
      }
      var e := WithCase(r, g.name);
      AddedInOrder(e, PlaceOf(e.cases, g.name).value, g.test, Mentioned(registrations));
    }
  }

  lemma EmptyInOrder()
    ensures InOrder(EMPTY, [])
  {
  }

  lemma SameCase(r: Registry, name: string)
    requires -1 <= r.last < |r.cases| && PlaceOf(r.cases, name).Some?
    ensures WithCase(r, name) == r
  {
  }

  lemma AddedInOrder(e: Registry, k: nat, test: nat, names: seq<string>)
    requires k < |e.cases| && InOrder(e, names)
    ensures InOrder(e.(cases := AddTo(e.cases, k, test)), names)
  {
    AddKeepsNames(e.cases, k, test);
  }

  // ----- sizes

  predicate TestsFit(cases: seq<Case>, n: nat) { forall i | 0 <= i < |cases| :: |cases[i].tests| <= n }

  lemma CaseFits(r: Registry, name: string, n: nat)
    requires -1 <= r.last < |r.cases| && TestsFit(r.cases, n)
    ensures |r.cases| <= |WithCase(r, name).cases| <= |r.cases| + 1 && TestsFit(WithCase(r, name).cases, n)
  {
    hide MatchesAny, PlaceOf;
  }

  lemma RegisterFits(r: Registry, name: string, test: nat, n: nat)
    requires -1 <= r.last < |r.cases| && TestsFit(r.cases, n)
    ensures |Register(r, name, test).cases| <= |r.cases| + 1 && TestsFit(Register(r, name, test).cases, n + 1)
  {
    hide WithCase, PlaceOf;
    CaseFits(r, name, n);
  }

  /** Neither the test cases nor the tests of one are more than what was
      registered. */
  lemma {:induction false} AllFit(registrations: seq<Registration>)
    ensures var r := RegisterAll(registrations);
            |r.cases| <= |registrations| && TestsFit(r.cases, |registrations|)
  {
    if registrations != [] {
      hide Register;
      var n := |registrations| - 1;
      AllFit(registrations[..n]);
      RegisterFits(RegisterAll(registrations[..n]), registrations[n].name, registrations[n].test, n);
    }
  }
}

/** The least-loaded pool of sessions as a state machine on values. */
module SessionPool {
  import opened Errors

  /** A session remembers the pool it was made for. */
  class PooledSession {
    const backLink: nat

    constructor (link: nat)
      ensures backLink == link
    {
      backLink := link;
    }
  }

  type S = PooledSession

  datatype Pool = Pool(size: int, recycled: seq<S>)

  /** The pools, and the sessions handed out and not yet released. */
  datatype State = State(pools: seq<Pool>, out: set<S>)

  /** The first of the least loaded pools. */
  function LeastLoaded(pools: seq<Pool>): (k: nat)
    requires pools != []
    ensures k < |pools|
    ensures forall j | 0 <= j < |pools| :: pools[k].size <= pools[j].size && (j < k ==> pools[k].size < pools[j].size)
  {
    if |pools| == 1 then 0
    else
      var k := LeastLoaded(pools[..|pools| - 1]);
      if pools[|pools| - 1].size < pools[k].size then |pools| - 1 else k
  }

  /** A recycled session of the pool, or the new one if there was memory for it. */
  function CreateIn(p: Pool, made: Option<S>): (Pool, Option<S>) {
    if p.recycled != [] then (Pool(p.size + 1, p.recycled[1..]), Some(p.recycled[0]))
    else if made.Some? then (p.(size := p.size + 1), made)
    else (p, None)
  }

  function Create(s: State, made: Option<S>): (State, Option<S>)
    requires s.pools != []
  {
    var k := LeastLoaded(s.pools);
    var (p, x) := CreateIn(s.pools[k], made);
    (State(s.pools[k := p], if x.Some? then s.out + {x.value} else s.out), x)
  }

  function ReleaseIn(max: nat, p: Pool, x: S): Pool {
    Pool(p.size - 1, if max > |p.recycled| then [x] + p.recycled else p.recycled)
  }

  function Release(max: nat, s: State, x: S): State
    requires x.backLink < |s.pools|
  {
    State(s.pools[x.backLink := ReleaseIn(max, s.pools[x.backLink], x)], s.out - {x})
  }

  // ----- what every step keeps

  function OutOf(out: set<S>, j: nat): set<S> { set x | x in out && x.backLink == j }

  ghost predicate PoolOk(max: nat, p: Pool, out: set<S>, j: nat) {
    && p.size == |OutOf(out, j)| && |p.recycled| <= max
    && (forall i | 0 <= i < |p.recycled| :: p.recycled[i].backLink == j && p.recycled[i] !in out)
    && forall i, k | 0 <= i < k < |p.recycled| :: p.recycled[i] != p.recycled[k]
  }

  /** Every pool counts exactly the sessions in use that were made for it, and
      recycles only its own unused ones, each once. */
  ghost predicate Inv(max: nat, s: State) {
    && s.pools != [] && (forall x | x in s.out :: x.backLink < |s.pools|)
    && forall j | 0 <= j < |s.pools| :: PoolOk(max, s.pools[j], s.out, j)
  }

  /** A session that was just made is nobody's yet, and links to the pool that
      was selected. */
  ghost predicate New(s: State, made: Option<S>)
    requires s.pools != []
  {
    made.Some? ==>
      && made.value.backLink == LeastLoaded(s.pools) && made.value !in s.out
      && forall j | 0 <= j < |s.pools| :: made.value !in s.pools[j].recycled
  }

  lemma TakenFrom(out: set<S>, x: S, j: nat)
    requires x !in out
    ensures OutOf(out + {x}, j) == if x.backLink == j then OutOf(out, j) + {x} else OutOf(out, j)
  {
  }

  lemma GivenBack(out: set<S>, x: S, j: nat)
    requires x in out
    ensures OutOf(out - {x}, j) == if x.backLink == j then OutOf(out, j) - {x} else OutOf(out, j)
  {
  }

  /** Creation hands out a session that nobody has, and keeps the counts. */
  lemma CreateKeeps(max: nat, s: State, made: Option<S>)
    requires Inv(max, s) && New(s, made)
    ensures var (r, x) := Create(s, made);
            && Inv(max, r)
            && (x.Some? ==> x.value !in s.out && x.value.backLink == LeastLoaded(s.pools)
                            && r.out == s.out + {x.value})
            && (x.None? ==> r == s)
  {
    var k := LeastLoaded(s.pools);
    var (r, x) := Create(s, made);
    assert PoolOk(max, s.pools[k], s.out, k);
    if x.Some? {
      forall j | 0 <= j < |r.pools| ensures PoolOk(max, r.pools[j], r.out, j) {
        assert PoolOk(max, s.pools[j], s.out, j);
        TakenFrom(s.out, x.value, j);
        TakenFrom(s.out, x.value, k);
      }
    }
  }

  /** Release takes back one that is in use, and keeps the counts. */
  lemma ReleaseKeeps(max: nat, s: State, x: S)
    requires Inv(max, s) && x in s.out
    ensures Inv(max, Release(max, s, x))
  {
    var r := Release(max, s, x);
    forall j | 0 <= j < |r.pools| ensures PoolOk(max, r.pools[j], r.out, j) {
      assert PoolOk(max, s.pools[j], s.out, j);
      GivenBack(s.out, x, j);
    }
  }

  /** A session is made only when the selected pool has none to use again; the
      other pools are left alone. */
  lemma CreateReuses(max: nat, s: State, made: Option<S>)
    requires Inv(max, s)
    ensures var k := LeastLoaded(s.pools);
            var (r, x) := Create(s, made);
            && (if s.pools[k].recycled != [] then
                  x == Some(s.pools[k].recycled[0]) && r.pools[k].recycled == s.pools[k].recycled[1..]
                else x == made && r.pools[k].recycled == [])
            && r.pools[k].size == s.pools[k].size + (if x.Some? then 1 else 0)
            && |r.pools| == |s.pools| && forall j | 0 <= j < |s.pools| && j != k :: r.pools[j] == s.pools[j]
  {
  }

  /** A released session is kept for another use exactly when its pool has room for
      it, and then it is the first to be handed out by this pool again. */
  lemma ReleaseRecycles(max: nat, s: State, x: S, made: Option<S>)
    requires Inv(max, s) && x in s.out
    ensures var k := x.backLink;
            var r := Release(max, s, x);
            && (x in r.pools[k].recycled <==> |s.pools[k].recycled| < max)
            && r.pools[k].size == s.pools[k].size - 1 && x !in r.out
            && (|s.pools[k].recycled| < max && LeastLoaded(r.pools) == k ==> Create(r, made).1 == Some(x))
            && |r.pools| == |s.pools| && forall j | 0 <= j < |s.pools| && j != k :: r.pools[j] == s.pools[j]
  {
    assert PoolOk(max, s.pools[x.backLink], s.out, x.backLink);
  }

  // ----- the balance

  function Sum(pools: seq<Pool>): int {
    if pools == [] then 0 else Sum(pools[..|pools| - 1]) + pools[|pools| - 1].size
  }

  function Below(out: set<S>, m: nat): set<S> { set x | x in out && x.backLink < m }

  lemma {:induction false} SumCounts(max: nat, s: State, m: nat)
    requires Inv(max, s) && m <= |s.pools|
    ensures Sum(s.pools[..m]) == |Below(s.out, m)|
  {
    if m == 0 {
      assert Below(s.out, 0) == {};
    } else {
      SumCounts(max, s, m - 1);
      assert s.pools[..m][..m - 1] == s.pools[..m - 1];
      assert PoolOk(max, s.pools[m - 1], s.out, m - 1);
      assert Below(s.out, m) == Below(s.out, m - 1) + OutOf(s.out, m - 1);
    }
  }

  lemma {:induction false} SumAtLeast(pools: seq<Pool>, low: int)
    requires forall j | 0 <= j < |pools| :: low <= pools[j].size
    ensures |pools| * low <= Sum(pools)
  {
    if pools != [] {
      var rest := pools[..|pools| - 1];
      SumAtLeast(rest, low);
      assert |pools| * low == |rest| * low + low;
    }
  }

  /** The number of sessions per pool when `n` are shared evenly, rounded up. */
  function Share(n: nat, k: nat): nat
    requires k > 0
  {
    (n + k - 1) / k
  }

  lemma TimesGrows(k: nat, x: int, y: int)
    requires x <= y
    ensures k * x <= k * y
  {
  }

  lemma BelowShare(n: nat, k: nat, low: nat)
    requires k > 0 && k * low < n
    ensures low + 1 <= Share(n, k)
  {
    var q := (n + k - 1) / k;
    assert n + k - 1 == k * q + (n + k - 1) % k;
    if q <= low {
      TimesGrows(k, q, low);
    }
  }

  predicate Balanced(s: State, n: nat)
    requires s.pools != []
  {
    forall j | 0 <= j < |s.pools| :: s.pools[j].size <= Share(n, |s.pools|)
  }

  lemma CreateBalances(max: nat, s: State, made: Option<S>, n: nat)
    requires Inv(max, s) && New(s, made) && Balanced(s, n) && |Create(s, made).0.out| <= n
    ensures Balanced(Create(s, made).0, n)
  {
    var k := LeastLoaded(s.pools);
    var (r, x) := Create(s, made);
    CreateKeeps(max, s, made);
    if x.Some? {
      SumCounts(max, s, |s.pools|);
      assert s.pools[..|s.pools|] == s.pools && Below(s.out, |s.pools|) == s.out;
      SumAtLeast(s.pools, s.pools[k].size);
      assert PoolOk(max, s.pools[k], s.out, k);
      BelowShare(n, |s.pools|, s.pools[k].size);
    }
  }

  // ----- whole runs

  datatype Event = Created(made: Option<S>) | Released(x: S)

  ghost predicate Enabled(s: State, event: Event)
    requires s.pools != []
  {
    match event
    case Created(made) => New(s, made)
    case Released(x) => x in s.out
  }

  function Step(max: nat, s: State, event: Event): State
    requires s.pools != [] && (event.Released? ==> event.x.backLink < |s.pools|)
  {
    match event
    case Created(made) => Create(s, made).0
    case Released(x) => Release(max, s, x)
  }

  lemma StepKeeps(max: nat, s: State, event: Event)
    requires Inv(max, s) && Enabled(s, event)
    ensures Inv(max, Step(max, s, event)) && |Step(max, s, event).pools| == |s.pools|
  {
    match event
    case Created(made) => CreateKeeps(max, s, made);
    case Released(x) => ReleaseKeeps(max, s, x);
  }

  /** A run during which never more than `n` sessions are in use. */
  ghost predicate Runs(max: nat, s: State, run: seq<Event>, n: nat)
    requires Inv(max, s)
    decreases |run|
  {
    && |s.out| <= n
    && (run != [] ==>
          && Enabled(s, run[0])
          && (StepKeeps(max, s, run[0]); Runs(max, Step(max, s, run[0]), run[1..], n)))
  }

  ghost function After(max: nat, s: State, run: seq<Event>, n: nat): (r: State)
    requires Inv(max, s) && Runs(max, s, run, n)
    ensures Inv(max, r) && |r.pools| == |s.pools|
    decreases |run|
  {
    if run == [] then s
    else
      StepKeeps(max, s, run[0]);
      After(max, Step(max, s, run[0]), run[1..], n)
  }

  /** Whatever is created and released, in whatever order: as long as at most `n`
      sessions are in use, no pool ever has more than its share of `n`. */
  lemma {:induction false} StaysBalanced(max: nat, s: State, run: seq<Event>, n: nat)
    requires Inv(max, s) && Balanced(s, n) && Runs(max, s, run, n)
    ensures Balanced(After(max, s, run, n), n)
    decreases |run|
  {
    if run != [] {
      StepKeeps(max, s, run[0]);
      var r := Step(max, s, run[0]);
      if run[0].Created? {
        CreateBalances(max, s, run[0].made, n);
      }
      StaysBalanced(max, r, run[1..], n);
    }
  }
}

/** The random generator and the in-place shuffle of index vectors. */
module TestShuffle {

  const MAX_RANGE := 0x8000_0000

  /** The linear congruential step, in 32-bit unsigned arithmetic. */
  function NextState(state: nat): (r: nat)
    ensures r < MAX_RANGE
  {
    ((1103515245 * state + 12345) % 0x1_0000_0000) % MAX_RANGE
  }

  /** The step before, for a state below the range: the multiplier is odd. */
  function PreviousState(state: nat): nat { (1857678181 * (state + MAX_RANGE - 12345)) % MAX_RANGE }

  /** The generator never joins two sequences of numbers: each state comes from
      one other. */
  lemma StepUndone(state: nat)
    requires state < MAX_RANGE
    ensures PreviousState(NextState(state)) == state
  {
    hide NextState;
    var q := Quotient(state);
    Inverse(state, q);
    Remainder(state, 954594553 * state - 1857678181 * q + 1857678181);
  }

  lemma Quotient(state: nat) returns (q: int)
    ensures NextState(state) == 1103515245 * state + 12345 - MAX_RANGE * q
  {
    var product := 1103515245 * state + 12345;
    WrapsOnce(product);
    q := product / MAX_RANGE;
  }

  lemma Inverse(state: int, q: int)
    ensures 1857678181 * (1103515245 * state + 12345 - MAX_RANGE * q + MAX_RANGE - 12345)
         == state + MAX_RANGE * (954594553 * state - 1857678181 * q + 1857678181)
  {
  }

  /** From a seed of zero the states begin with these. */
  lemma FirstStates()
    ensures NextState(0) == 12345 && NextState(12345) == 1406932606 && NextState(1406932606) == 654583775
  {
  }

  lemma WrapsOnce(x: nat)
    ensures (x % 0x1_0000_0000) % MAX_RANGE == x % MAX_RANGE
  {
    var q := x / 0x1_0000_0000;
    assert x == 0x1_0000_0000 * q + x % 0x1_0000_0000;
    assert x == MAX_RANGE * (2 * q) + x % 0x1_0000_0000;
    Remainder(x % 0x1_0000_0000 % MAX_RANGE, 2 * q + x % 0x1_0000_0000 / MAX_RANGE);
  }

  lemma Remainder(r: nat, q: int)
    requires r < MAX_RANGE
    ensures (r + MAX_RANGE * q) % MAX_RANGE == r
  {
  }

  class Random {
    var state: nat

    constructor (seed: nat)
      ensures state == seed
    {
      state := seed;
    }

    /** The source crashes when `range` is zero or too large. */
    method Generate(range: nat) returns (r: nat)
      requires 0 < range <= MAX_RANGE
      modifies this
      ensures state == NextState(old(state)) && r == state % range && r < range
    {
      state := NextState(state);
      r := state % range;
    }
  }

  function Swap(s: seq<int>, i: nat, j: nat): (r: seq<int>)
    requires i < |s| && j < |s|
    ensures |r| == |s|
  {
    s[i := s[j]][j := s[i]]
  }

  /** Fisher-Yates on the `width` elements from `begin` on; the second result is
      the generator's state afterwards. */
  function Shuffled(s: seq<int>, begin: nat, width: nat, state: nat): (r: (seq<int>, nat))
    requires begin + width <= |s|
    ensures |r.0| == |s|
    decreases width
  {
    if width < 2 then (s, state)
    else
      var next := NextState(state);
      Shuffled(Swap(s, begin + next % width, begin + width - 1), begin, width - 1, next)
  }

  /** Nothing outside `lo..hi` differs, and inside are the same elements. */
  ghost predicate Permuted(s: seq<int>, t: seq<int>, lo: nat, hi: nat) {
    && |t| == |s| && lo <= hi <= |s|
    && t[..lo] == s[..lo] && t[hi..] == s[hi..] && multiset(t[lo..hi]) == multiset(s[lo..hi])
  }

  lemma SwapPermutes(s: seq<int>, lo: nat, hi: nat, i: nat, j: nat)
    requires lo <= i < hi <= |s| && lo <= j < hi
    ensures Permuted(s, Swap(s, i, j), lo, hi)
  {
    var r, m := Swap(s, i, j), s[lo..hi];
    assert r[lo..hi] == m[i - lo := m[j - lo]][j - lo := m[i - lo]];
    assert r[..lo] == s[..lo] && r[hi..] == s[hi..];
  }

  lemma PermutedWider(s: seq<int>, t: seq<int>, lo: nat, hi: nat)
    requires Permuted(s, t, lo, hi) && hi < |s|
    ensures Permuted(s, t, lo, hi + 1)
  {
    assert t[lo..hi + 1] == t[lo..hi] + [t[hi]] && s[lo..hi + 1] == s[lo..hi] + [s[hi]];
    assert t[hi..][0] == s[hi..][0];
    assert t[hi + 1..] == t[hi..][1..] && s[hi + 1..] == s[hi..][1..];
  }

  lemma PermutedTwice(s: seq<int>, t: seq<int>, u: seq<int>, lo: nat, hi: nat)
    requires Permuted(s, t, lo, hi) && Permuted(t, u, lo, hi)
    ensures Permuted(s, u, lo, hi)
  {
  }

  lemma Unpermuted(s: seq<int>, lo: nat, hi: nat)
    requires lo <= hi <= |s|
    ensures Permuted(s, s, lo, hi)
  {
  }

  /** A shuffle permutes its range and touches nothing else, whatever the random
      numbers are. */
  lemma {:induction false} ShufflePermutes(s: seq<int>, begin: nat, width: nat, state: nat)
    requires begin + width <= |s|
    ensures Permuted(s, Shuffled(s, begin, width, state).0, begin, begin + width)
    decreases width
  {
    hide Permuted, NextState, Swap;
    if width < 2 {
      Unpermuted(s, begin, begin + width);
    } else {
      var next := NextState(state);
      var t := Swap(s, begin + next % width, begin + width - 1);
      SwapPermutes(s, begin, begin + width, begin + next % width, begin + width - 1);
      ShufflePermutes(t, begin, width - 1, next);
      PermutedWider(t, Shuffled(t, begin, width - 1, next).0, begin, begin + width - 1);
      PermutedTwice(s, t, Shuffled(t, begin, width - 1, next).0, begin, begin + width);
    }
  }

  /** The source checks the range, and crashes when it is not one of the vector. */
  method ShuffleRange(random: Random, begin: nat, end: nat, v: array<int>)
    requires begin <= end <= v.Length <= MAX_RANGE
    modifies random, v
    ensures (v[..], random.state) == Shuffled(old(v[..]), begin, end - begin, old(random.state))
    ensures Permuted(old(v[..]), v[..], begin, end)
  {
    hide Permuted, NextState, Swap, Shuffled;
    ShufflePermutes(v[..], begin, end - begin, random.state);
    var rangeWidth := end - begin;
    while rangeWidth >= 2
      invariant 0 <= rangeWidth <= end - begin
      invariant Shuffled(v[..], begin, rangeWidth, random.state)
             == Shuffled(old(v[..]), begin, end - begin, old(random.state))
    {
      ShuffledUnfolds(v[..], begin, rangeWidth, random.state);
      var lastInRange := begin + rangeWidth - 1;
      var r := random.Generate(rangeWidth);
      var selected := begin + r;
      SwapElements(v, selected, lastInRange);
      rangeWidth := rangeWidth - 1;
    }
    ShuffledUnfolds(v[..], begin, rangeWidth, random.state);
  }

  lemma ShuffledUnfolds(s: seq<int>, begin: nat, width: nat, state: nat)
    requires begin + width <= |s|
    ensures width < 2 ==> Shuffled(s, begin, width, state) == (s, state)
    ensures width >= 2 ==>
              var next := NextState(state);
              && begin + next % width < |s|
              && Shuffled(s, begin, width, state)
                   == Shuffled(Swap(s, begin + next % width, begin + width - 1), begin, width - 1, next)
  {
  }

  method SwapElements(v: array<int>, i: nat, j: nat)
    requires i < v.Length && j < v.Length
    modifies v
    ensures v[..] == Swap(old(v[..]), i, j)
  {
    v[i], v[j] := v[j], v[i];
  }

  /** The vector one element longer. */
  method PushBack(v: array<int>, x: int) returns (w: array<int>)
    ensures fresh(w) && w[..] == v[..] + [x]
  {
    w := new int[v.Length + 1];
    forall i | 0 <= i < v.Length { w[i] := v[i]; }
    w[v.Length] := x;
    assert w[..v.Length] == v[..];
  }

  /** The order before any shuffle. */
  function Identity(n: nat): (s: seq<int>)
    ensures |s| == n && forall i | 0 <= i < n :: s[i] == i
  {
    seq(n, i => i)
  }

  ghost predicate Order(s: seq<int>) { multiset(s) == multiset(Identity(|s|)) }

  lemma OrderKept(s: seq<int>, t: seq<int>)
    requires Order(s) && Permuted(s, t, 0, |s|)
    ensures Order(t)
  {
    assert t[0..|s|] == t && s[0..|s|] == s;
  }

  /** Each of the first `d` indices is one of the first `d`, each exactly once, and
      so are the others among the others. */
  ghost predicate SplitOrder(s: seq<int>, d: nat) {
    && d <= |s|
    && multiset(s[..d]) == multiset(Identity(|s|)[..d]) && multiset(s[d..]) == multiset(Identity(|s|)[d..])
  }

  lemma SplitIsOrder(s: seq<int>, d: nat)
    requires SplitOrder(s, d)
    ensures Order(s)
  {
    assert s == s[..d] + s[d..] && Identity(|s|) == Identity(|s|)[..d] + Identity(|s|)[d..];
  }

  lemma SplitMembers(s: seq<int>, d: nat, i: nat)
    requires SplitOrder(s, d) && i < |s|
    ensures 0 <= s[i] < |s| && (s[i] < d <==> i < d)
  {
    var n := Identity(|s|);
    if i < d {
      assert s[i] in multiset(s[..d]) by { assert s[..d][i] == s[i]; }
      var k :| 0 <= k < d && n[..d][k] == s[i];
    } else {
      assert s[i] in multiset(s[d..]) by { assert s[d..][i - d] == s[i]; }
      var k :| 0 <= k < |s| - d && n[d..][k] == s[i];
    }
  }

  lemma ShuffleFront(s: seq<int>, t: seq<int>, d: nat)
    requires SplitOrder(s, d) && Permuted(s, t, 0, d)
    ensures SplitOrder(t, d)
  {
    assert t[0..d] == t[..d] && s[0..d] == s[..d];
  }

  lemma ShuffleBack(s: seq<int>, t: seq<int>, d: nat)
    requires SplitOrder(s, d) && Permuted(s, t, d, |s|)
    ensures SplitOrder(t, d)
  {
    assert t[d..|s|] == t[d..] && s[d..|s|] == s[d..];
  }

  // ----- every order, each in one way

  /** Numbers that a shuffle may draw: for each width, one below it. */
  predicate Drawn(choices: seq<nat>, width: nat) {
    |choices| == (if width < 2 then 0 else width - 1) && forall i | 0 <= i < |choices| :: choices[i] < width - i
  }

  /** What the numbers drawn make of a range. */
  function Arranged(s: seq<int>, begin: nat, width: nat, choices: seq<nat>): (r: seq<int>)
    requires begin + width <= |s| && Drawn(choices, width)
    ensures |r| == |s|
    decreases width
  {
    if width < 2 then s
    else Arranged(Swap(s, begin + choices[0], begin + width - 1), begin, width - 1, choices[1..])
  }

  /** The numbers the generator draws. */
  function Numbers(width: nat, state: nat): (r: seq<nat>)
    ensures Drawn(r, width)
    decreases width
  {
    if width < 2 then [] else [NextState(state) % width] + Numbers(width - 1, NextState(state))
  }

  /** A shuffle arranges its range by the numbers it draws. */
  lemma {:induction false} ShuffleArranges(s: seq<int>, begin: nat, width: nat, state: nat)
    requires begin + width <= |s|
    ensures Shuffled(s, begin, width, state).0 == Arranged(s, begin, width, Numbers(width, state))
    decreases width
  {
    hide NextState;
    if width >= 2 {
      var next := NextState(state);
      ShuffleArranges(Swap(s, begin + next % width, begin + width - 1), begin, width - 1, next);
      assert Numbers(width, state)[1..] == Numbers(width - 1, next);
    }
  }

  /** Nothing from `begin + width` on moves. */
  lemma {:induction false} ArrangedKeeps(s: seq<int>, begin: nat, width: nat, choices: seq<nat>, k: nat)
    requires begin + width <= |s| && Drawn(choices, width) && begin + width <= k < |s|
    ensures Arranged(s, begin, width, choices)[k] == s[k]
    decreases width
  {
    if width >= 2 {
      ArrangedKeeps(Swap(s, begin + choices[0], begin + width - 1), begin, width - 1, choices[1..], k);
    }
  }

  /** The last place of a range gets the element that is drawn for it. */
  lemma ArrangedLast(s: seq<int>, begin: nat, width: nat, choices: seq<nat>)
    requires begin + width <= |s| && Drawn(choices, width) && width >= 2
    ensures Arranged(s, begin, width, choices)[begin + width - 1] == s[begin + choices[0]]
  {
    ArrangedKeeps(Swap(s, begin + choices[0], begin + width - 1), begin, width - 1, choices[1..], begin + width - 1);
  }

  lemma SameButLast(a: seq<int>, b: seq<int>, x: int)
    requires multiset(a + [x]) == multiset(b + [x])
    ensures multiset(a) == multiset(b)
  {
    assert multiset(a) == multiset(a + [x]) - multiset{x} && multiset(b) == multiset(b + [x]) - multiset{x};
  }

  lemma PermutedNarrower(s: seq<int>, t: seq<int>, lo: nat, hi: nat)
    requires Permuted(s, t, lo, hi) && lo < hi && s[hi - 1] == t[hi - 1]
    ensures Permuted(s, t, lo, hi - 1)
  {
    assert t[lo..hi] == t[lo..hi - 1] + [t[hi - 1]] && s[lo..hi] == s[lo..hi - 1] + [s[hi - 1]];
    SameButLast(s[lo..hi - 1], t[lo..hi - 1], s[hi - 1]);
    assert t[hi - 1..] == [t[hi - 1]] + t[hi..] && s[hi - 1..] == [s[hi - 1]] + s[hi..];
  }

  /** Every order of the range can come out of a shuffle. */
  lemma {:induction false} EveryOrderReached(s: seq<int>, t: seq<int>, begin: nat, width: nat) returns (choices: seq<nat>)
    requires begin + width <= |s| && Permuted(s, t, begin, begin + width)
    ensures Drawn(choices, width) && Arranged(s, begin, width, choices) == t
    decreases width
  {
    hide Permuted, Swap;
    if width < 2 {
      PermutedFew(s, t, begin, width);
      choices := [];
    } else {
      var last := begin + width - 1;
      var k := Drawable(s, t, begin, width);
      var u := Swap(s, begin + k, last);
      SwapLast(s, begin + k, last);
      SwapPermutes(s, begin, begin + width, begin + k, last);
      PermutedBack(s, u, t, begin, begin + width);
      PermutedNarrower(u, t, begin, begin + width);
      var rest := EveryOrderReached(u, t, begin, width - 1);
      choices := [k] + rest;
      assert choices[1..] == rest;
    }
  }

  lemma SwapLast(s: seq<int>, i: nat, j: nat)
    requires i < |s| && j < |s|
    ensures Swap(s, i, j)[j] == s[i]
  {
  }

  lemma PermutedBack(s: seq<int>, u: seq<int>, t: seq<int>, lo: nat, hi: nat)
    requires Permuted(s, u, lo, hi) && Permuted(s, t, lo, hi)
    ensures Permuted(u, t, lo, hi)
  {
  }

  lemma PermutedFew(s: seq<int>, t: seq<int>, begin: nat, width: nat)
    requires width < 2 && begin + width <= |s| && Permuted(s, t, begin, begin + width)
    ensures s == t
  {
    var hi := begin + width;
    assert s == s[..begin] + s[begin..hi] + s[hi..] && t == t[..begin] + t[begin..hi] + t[hi..];
    if width == 1 {
      assert t[begin] in multiset(t[begin..hi]);
      assert s[begin..hi] == [s[begin]] && t[begin..hi] == [t[begin]];
    }
  }

  /** The element that belongs to the last place is somewhere in the range. */
  lemma Drawable(s: seq<int>, t: seq<int>, begin: nat, width: nat) returns (k: nat)
    requires width >= 1 && begin + width <= |s| && Permuted(s, t, begin, begin + width)
    ensures k < width && begin + width <= |t| && s[begin + k] == t[begin + width - 1]
  {
    var hi := begin + width;
    assert t[hi - 1] in multiset(t[begin..hi]) by { assert t[begin..hi][width - 1] == t[hi - 1]; }
    var i :| 0 <= i < width && s[begin..hi][i] == t[hi - 1];
    k := i;
  }

  predicate AllDifferent(s: seq<int>) { forall i, j | 0 <= i < j < |s| :: s[i] != s[j] }

  /** And in one way only: other numbers make another order. */
  lemma {:induction false} EachOrderOnce(s: seq<int>, begin: nat, width: nat, c: seq<nat>, d: seq<nat>)
    requires AllDifferent(s) && begin + width <= |s| && Drawn(c, width) && Drawn(d, width)
    requires Arranged(s, begin, width, c) == Arranged(s, begin, width, d)
    ensures c == d
    decreases width
  {
    if width >= 2 {
      ArrangedLast(s, begin, width, c);
      ArrangedLast(s, begin, width, d);
      assert c[0] == d[0];
      EachOrderOnce(Swap(s, begin + c[0], begin + width - 1), begin, width - 1, c[1..], d[1..]);
      assert c == [c[0]] + c[1..] && d == [d[0]] + d[1..];
    }
  }
}

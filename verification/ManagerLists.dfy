/** Facts about the list of active sessions and the cursor that walks it. */
module ManagerLists {
  import opened Errors
  import opened ManagerSpec

  ghost predicate NoDup(q: seq<W>) {
    forall i, j | 0 <= i < j < |q| :: q[i] != q[j]
  }

  /** All elements of `a` are in `b`. */
  ghost predicate Within(a: seq<W>, b: seq<W>) {
    forall i | 0 <= i < |a| :: a[i] in b
  }

  lemma {:induction false} EraseWithin(q: seq<W>, w: W)
    ensures Within(Erase(q, w), q)
    ensures forall i | 0 <= i < |q| && q[i] != w :: q[i] in Erase(q, w)
  {
    if q != [] && q[0] != w {
      EraseWithin(q[1..], w);
      var r := Erase(q[1..], w);
      assert Erase(q, w)[0] == q[0] && Erase(q, w)[1..] == r;
      forall i | 0 <= i < |Erase(q, w)| ensures Erase(q, w)[i] in q {
        if i > 0 {
          assert Erase(q, w)[i] == r[i - 1] && r[i - 1] in q[1..];
        }
      }
      forall i | 0 <= i < |q| && q[i] != w ensures q[i] in Erase(q, w) {
        if i > 0 {
          assert q[i] == q[1..][i - 1] && q[1..][i - 1] in r;
        }
      }
    }
  }

  lemma {:induction false} EraseMembers(q: seq<W>, w: W)
    requires NoDup(q)
    ensures NoDup(Erase(q, w)) && Within(Erase(q, w), q) && w !in Erase(q, w)
    ensures forall i | 0 <= i < |q| && q[i] != w :: q[i] in Erase(q, w)
    ensures |Erase(q, w)| == if w in q then |q| - 1 else |q|
  {
    EraseWithin(q, w);
    if q != [] && q[0] != w {
      EraseMembers(q[1..], w);
      assert Erase(q, w)[0] == q[0] && Erase(q, w)[1..] == Erase(q[1..], w);
      assert q[0] !in q[1..];
    }
  }

  lemma {:induction false} FromWithin(q: seq<W>, w: Option<W>)
    ensures Within(From(q, w), q)
  {
    if w.Some? && q != [] && q[0] != w.value {
      FromWithin(q[1..], w);
      var f := From(q[1..], w);
      forall i | 0 <= i < |f| ensures f[i] in q {
        assert f[i] in q[1..];
      }
    }
  }

  /** What begins at a member of the list is not empty, and begins with it. */
  lemma {:induction false} FromMembers(q: seq<W>, w: Option<W>)
    requires NoDup(q)
    ensures NoDup(From(q, w)) && |From(q, w)| <= |q| && Within(From(q, w), q)
    ensures From(q, w) != [] <==> w.Some? && w.value in q
    ensures From(q, w) != [] ==> From(q, w)[0] == w.value
  {
    if w.Some? && q != [] && q[0] != w.value {
      FromMembers(q[1..], w);
    }
  }

  /** The successor of a member begins the rest of the list after it. */
  lemma {:induction false} NextBegins(q: seq<W>, w: W)
    requires NoDup(q) && w in q
    ensures From(q, Some(w)) != [] && From(q, Next(q, w)) == From(q, Some(w))[1..]
    ensures Next(q, w).Some? ==> Next(q, w).value in q
  {
    FromMembers(q, Some(w));
    if q[0] == w {
      if |q| > 1 {
        assert From(q[1..], Some(q[1])) == q[1..];
        assert From(q, Next(q, w)) == From(q[1..], Some(q[1]));
      }
    } else {
      NextBegins(q[1..], w);
      FromMembers(q[1..], Some(w));
      var n := Next(q[1..], w);
      assert Next(q, w) == n;
      if n.Some? {
        assert n.value in q[1..];
      }
    }
  }

  lemma FromAfterEraseHead(q: seq<W>, c: Option<W>)
    requires NoDup(q) && q != [] && (c.Some? ==> c.value in q)
    ensures var d := if c == Some(q[0]) then Next(q, q[0]) else c;
            && From(q[1..], d) == Erase(From(q, c), q[0])
            && (d.Some? ==> d.value in q[1..])
  {
    if c == Some(q[0]) {
      NextBegins(q, q[0]);
      if |q| > 1 {
        assert From(q[1..], Some(q[1])) == q[1..];
      }
    } else if c.Some? {
      FromMembers(q[1..], c);
      EraseAbsent(From(q[1..], c), q[0]);
    }
  }

  /** Taking `w` off the list takes it off what is still to be walked; when it
      was next, its successor becomes next. */
  lemma {:induction false} FromAfterErase(q: seq<W>, w: W, c: Option<W>)
    requires NoDup(q) && w in q && (c.Some? ==> c.value in q)
    ensures var d := if c == Some(w) then Next(q, w) else c;
            && From(Erase(q, w), d) == Erase(From(q, c), w)
            && (d.Some? ==> d.value in Erase(q, w))
  {
    if q[0] == w {
      FromAfterEraseHead(q, c);
    } else {
      var e := Erase(q[1..], w);
      assert Erase(q, w)[0] == q[0] && Erase(q, w)[1..] == e;
      if c != Some(q[0]) {
        FromAfterErase(q[1..], w, c);
        NextTail(q, w);
      }
    }
  }

  lemma NextTail(q: seq<W>, w: W)
    requires NoDup(q) && w in q && q[0] != w
    ensures Next(q, w) == Next(q[1..], w) && Next(q, w) != Some(q[0])
  {
    NextBegins(q[1..], w);
  }

  lemma {:induction false} EraseAbsent(q: seq<W>, w: W)
    requires w !in q
    ensures Erase(q, w) == q
  {
    if q != [] {
      EraseAbsent(q[1..], w);
    }
  }
}

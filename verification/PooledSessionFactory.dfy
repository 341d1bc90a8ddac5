/** The pooled session factory object: each pool item changes its own load and
    its list of recycled sessions in place. */
module PooledSessionFactory {
  import opened Errors
  import opened SessionPool

  class PoolItem {
    const maxRecycled: nat
    var size: int
    var recycled: seq<PooledSession>

    constructor (max: nat)
      ensures maxRecycled == max && Value() == Pool(0, [])
    {
      maxRecycled, size, recycled := max, 0, [];
    }

    ghost function Value(): Pool
      reads this
    {
      Pool(size, recycled)
    }

    /** `memory` tells whether a new session can be allocated. */
    method Create(backLink: nat, memory: bool)
      returns (session: Option<PooledSession>, error: Error, ghost made: Option<PooledSession>)
      modifies this
      ensures made.Some? ==> fresh(made.value) && made.value.backLink == backLink
      ensures (Value(), session) == CreateIn(old(Value()), made)
      ensures error == if session.Some? then Success else NotEnoughMemory
    {
      made := None;
      if recycled != [] {
        session := Some(recycled[0]);
        recycled := recycled[1..];
        size := size + 1;
        return session, Success, None;
      }
      if !memory {
        return None, NotEnoughMemory, None;
      }
      var s := new PooledSession(backLink);
      size := size + 1;
      return Some(s), Success, Some(s);
    }

    method Release(session: PooledSession)
      modifies this
      ensures Value() == ReleaseIn(maxRecycled, old(Value()), session)
    {
      size := size - 1;
      if maxRecycled > |recycled| {
        recycled := [session] + recycled;
      }
    }
  }

  class PooledSessionFactory {
    const maxRecycled: nat
    const pool: seq<PoolItem>
    /** What the pool items hold, and the sessions in use. */
    ghost var pools: seq<Pool>
    ghost var out: set<PooledSession>

    ghost predicate Wf()
      reads this, pool
    {
      && pool != [] && |pools| == |pool|
      && (forall i, j | 0 <= i < j < |pool| :: pool[i] != pool[j])
      && forall i | 0 <= i < |pool| :: pool[i].maxRecycled == maxRecycled && pool[i].Value() == pools[i]
    }

    ghost function State(): SessionPool.State
      reads this
    {
      SessionPool.State(pools, out)
    }

    ghost predicate Valid()
      reads this, pool
    {
      Wf() && Inv(maxRecycled, State())
    }

    /** One pool item for each io_service; there must be one. */
    constructor (services: nat, max: nat)
      requires services > 0
      ensures Valid() && |pool| == services && maxRecycled == max && out == {}
      ensures forall i | 0 <= i < services :: pools[i] == Pool(0, [])
    {
      var items: seq<PoolItem> := [];
      while |items| < services
        invariant |items| <= services
        invariant forall i | 0 <= i < |items| ::
          fresh(items[i]) && items[i].maxRecycled == max && items[i].Value() == Pool(0, [])
        invariant forall i, j | 0 <= i < j < |items| :: items[i] != items[j]
      {
        var item := new PoolItem(max);
        items := items + [item];
      }
      pool, maxRecycled := items, max;
      pools, out := seq(services, _ => Pool(0, [])), {};
      new;
      forall j | 0 <= j < |pools| ensures PoolOk(max, pools[j], out, j) {
        assert OutOf({}, j) == {};
      }
    }

    /** The first pool item that no other one is less loaded than. */
    method MinElement() returns (k: nat)
      requires Wf()
      ensures k == LeastLoaded(pools)
    {
      k := 0;
      var i := 1;
      while i < |pool|
        invariant 1 <= i <= |pool| && k == LeastLoaded(pools[..i])
      {
        assert pools[..i + 1][..i] == pools[..i];
        if pool[i].size < pool[k].size {
          k := i;
        }
        i := i + 1;
      }
      assert pools[..i] == pools;
    }

    /** The session handed out is in nobody's hands before. */
    method Create(memory: bool) returns (session: Option<PooledSession>, error: Error, ghost made: Option<PooledSession>)
      requires Valid()
      modifies this, pool
      ensures Valid() && New(old(State()), made)
      ensures (State(), session) == SessionPool.Create(old(State()), made)
      ensures session.Some? ==> session.value !in old(out)
      ensures error == if session.Some? then Success else NotEnoughMemory
    {
      var k := MinElement();
      session, error, made := pool[k].Create(k, memory);
      CreateKeeps(maxRecycled, State(), made);
      pools := pools[k := pool[k].Value()];
      if session.Some? {
        out := out + {session.value};
      }
    }

    /** A session goes back to the pool it was made for. */
    method Release(session: PooledSession)
      requires Valid() && session in out
      modifies this, pool
      ensures Valid() && State() == SessionPool.Release(maxRecycled, old(State()), session)
    {
      ReleaseKeeps(maxRecycled, State(), session);
      var k := session.backLink;
      pool[k].Release(session);
      pools := pools[k := pool[k].Value()];
      out := out - {session};
    }
  }
}

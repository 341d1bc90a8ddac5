/** What every step of the session manager keeps. */
module ManagerProofs {
  import opened Errors
  import opened SessionWrappers
  import opened ManagerSpec
  import opened ManagerLists
  import opened ManagerBooks

  /** Every active session ahead of the cursor was told to stop. */
  ghost predicate Ahead(active: seq<W>, views: map<W, View>, cursor: Option<W>) {
    forall i | 0 <= i < |active| && active[i] !in From(active, cursor) ::
      active[i] in views && views[active[i]].state.Stop?
  }

  /** The cursor of the stop: unused in work, afterwards a member of the list or
      at its end. */
  ghost predicate Cursor(s: State) {
    && (s.lists.stoppingEnd.Some? ==> s.lists.stoppingEnd.value in s.lists.active)
    && (s.intern.IntWork? ==> s.lists.stoppingEnd.None? && !s.ops.scheduled)
    && (s.intern.IntStop? ==> Ahead(s.lists.active, s.views, s.lists.stoppingEnd))
  }

  /** Every accepted session is charged once, will be charged by a start or wait
      that is still outstanding, or is one of those that were never counted. */
  predicate Tally(s: State) {
    && s.stats.totalAccepted
         == s.stats.Charged() + |s.ops.starting| + |s.ops.waiting| + s.past.uncounted
    && s.stats.active == |s.lists.active|
  }

  predicate Capacity(cfg: Config, s: State) {
    cfg.Valid() && |s.lists.active| + Bit(s.ops.accepting.Some?) <= cfg.maxSessions
  }

  predicate Parked(s: State) {
    && (s.mail.waitHandler.Some? ==> s.extern.ExtWork? && s.intern.IntWork?)
    && (s.mail.stopHandler.Some? ==> s.extern.ExtStop?)
    && (s.intern.IntWork? && !s.extern.ExtStop? ==> !s.mail.waitError.Failed())
    && (s.extern.ExtWork? && !s.intern.IntWork? ==> s.mail.waitError.Failed())
    && (s.intern.IntWork? && s.accept.AcceptStopped? ==> s.acceptError.Failed())
  }

  /** Holds of a running manager at any point inside a step. */
  ghost predicate Mid(cfg: Config, s: State) {
    Book(s) && Cursor(s) && Tally(s) && Capacity(cfg, s) && Parked(s)
    && (s.extern.ExtWork? || s.extern.ExtStop?)
  }

  predicate Control(cfg: Config, s: State) {
    && (s.extern.ExtReady? ==>
          && s.intern.IntWork? && s.accept.AcceptReady? && s.pending == 0 && s.lists.active == []
          && s.past.uncounted == 0)
    && (s.extern.ExtStop? ==> s.intern.IntStop?)
    && (s.extern.ExtStopped? ==> s.intern.IntStopped?)
    && (s.intern.IntWork? && s.extern.ExtWork? ==>
          && (s.accept.AcceptInProgress? || s.lists.active != [])
          && (s.accept.AcceptReady? ==> |s.lists.active| >= cfg.maxSessions || s.acceptError.Failed()))
    && (s.intern.IntStop? ==> s.pending > 0 && !s.accept.AcceptReady?)
    && (s.intern.IntStopped? ==> s.pending == 0 && s.accept.AcceptStopped? && s.lists.active == [])
    && (s.lists.stoppingEnd.Some? ==> s.ops.scheduled)
    && (s.ops.scheduled ==> s.intern.IntStop?)
  }

  /** The invariant while a stop request that may park itself is being served. */
  ghost predicate Core(cfg: Config, s: State) {
    Book(s) && Cursor(s) && Tally(s) && Capacity(cfg, s) && Parked(s) && Control(cfg, s)
  }

  ghost predicate Inv(cfg: Config, s: State) {
    Core(cfg, s) && (s.extern.ExtStop? ==> s.mail.stopHandler.Some?)
  }

  lemma InitialInv(cfg: Config)
    requires cfg.Valid()
    ensures Inv(cfg, Initial())
  {
    assert HeldBy(Initial().views) == {};
  }

  /** Nothing is outstanding exactly when nobody waits. */
  lemma NothingOutstanding(s: State)
    requires Book(s) && s.pending == 0
    ensures s.lists.active == [] && s.ops == Ops(None, {}, {}, {}, false) && s.past.held == {}
  {
    assert s.ops.starting == {} && s.ops.waiting == {} && s.ops.stopping == {};
    if s.lists.active != [] {
      var w := s.lists.active[0];
      Open(s, w);
      assert false;
    }
    forall i | i in HeldBy(s.views) ensures false {
      var w: W :| w in s.views && s.views[w].session == Some(i);
      Open(s, w);
      assert false;
    }
    assert HeldBy(s.views) == {};
  }

  // ----- stopping

  predicate SameStop(s: State, r: State) {
    && (r.extern.ExtStop? ==> s.extern.ExtStop? && r.mail.stopHandler == s.mail.stopHandler)
    && (!r.intern.IntStopped? ==> r.extern == s.extern)
  }

  lemma ContinueStopKeeps(cfg: Config, s: State)
    requires Mid(cfg, s) && s.intern.IntStop? && !s.accept.AcceptReady?
    requires s.lists.stoppingEnd.Some? ==> s.ops.scheduled
    ensures var r := ContinueStop(s);
            Core(cfg, r) && !r.intern.IntWork? && r.past.broken == s.past.broken && SameStop(s, r)
  {
    if s.pending == 0 {
      NothingOutstanding(s);
    }
  }

  /** Stopping one more session of the list. */
  lemma StopOne(s: State, w: W)
    requires Book(s) && w in s.lists.active && !s.views[w].state.Stop?
    ensures Book(StartSessionStop(s, w))
  {
    Open(s, w);
    var v, p := s.views[w], PlaceOf(s.lists, s.ops, w);
    AskStopAt(s, w, v, p);
    Close(StartSessionStop(s, w), w, Asked(v, AskStop), p.(stopping := true));
  }

  /** What a batch of stops leaves alone. */
  predicate BatchFrame(s: State, r: State) {
    r == s.(pending := r.pending, views := r.views,
            ops := s.ops.(stopping := r.ops.stopping), lists := s.lists.(stoppingEnd := r.lists.stoppingEnd))
  }

  /** Once the session under the cursor was told to stop, the cursor may move on. */
  lemma AheadMoves(active: seq<W>, views: map<W, View>, next: map<W, View>, w: W)
    requires NoDup(active) && w in active && Ahead(active, views, Some(w))
    requires w in next && next[w].state.Stop? && views.Keys <= next.Keys
    requires forall x | x in views && x != w :: next[x] == views[x]
    ensures Ahead(active, next, Next(active, w))
  {
    NextBegins(active, w);
    FromMembers(active, Some(w));
    var f := From(active, Some(w));
    assert f == [w] + f[1..];
  }

  lemma StopNextKeeps(s: State, w: W)
    requires Book(s) && w in s.lists.active && Ahead(s.lists.active, s.views, Some(w))
    ensures var r := StopNext(s, w);
            && Book(r) && r.lists == s.lists && BatchFrame(s, r)
            && Ahead(s.lists.active, r.views, Next(s.lists.active, w))
  {
    if !s.views[w].state.Stop? {
      StopOne(s, w);
    }
    AheadMoves(s.lists.active, s.views, StopNext(s, w).views, w);
  }

  /** The books are right, and the sessions ahead of the cursor were stopped. */
  ghost predicate Walked(s: State, cursor: Option<W>) {
    Book(s) && (cursor.Some? ==> cursor.value in s.lists.active) && Ahead(s.lists.active, s.views, cursor)
  }

  lemma WalkOn(s: State, w: W)
    requires Walked(s, Some(w))
    ensures Walked(StopNext(s, w), Next(s.lists.active, w))
  {
    StopNextKeeps(s, w);
    NextBegins(s.lists.active, w);
  }

  lemma WalkEnds(s: State, cursor: Option<W>)
    requires Walked(s, cursor)
    ensures Walked(s.(lists := s.lists.(stoppingEnd := cursor)), cursor)
  {
  }

  /** However many sessions a batch stops, it leaves the rest of the list to its
      cursor. */
  lemma {:induction false} StopBatchWalks(s: State, begin: Option<W>, count: nat)
    requires Walked(s, begin)
    ensures var r := StopBatch(s, begin, count); Walked(r, r.lists.stoppingEnd)
    decreases count
  {
    hide Walked;
    if count == 0 || begin.None? {
      WalkEnds(s, begin);
    } else {
      WalkOn(s, begin.value);
      StopBatchWalks(StopNext(s, begin.value), Next(s.lists.active, begin.value), count - 1);
      StopBatchUnfolds(s, begin, count);
    }
  }

  lemma StopBatchUnfolds(s: State, begin: Option<W>, count: nat)
    requires count > 0 && begin.Some?
    ensures StopBatch(s, begin, count)
              == StopBatch(StopNext(s, begin.value), Next(s.lists.active, begin.value), count - 1)
  {
  }

  lemma StopBatchEnds(s: State, begin: Option<W>, count: nat)
    requires count == 0 || begin.None?
    ensures StopBatch(s, begin, count) == s.(lists := s.lists.(stoppingEnd := begin))
  {
  }

  lemma {:induction false} StopBatchFrame(s: State, begin: Option<W>, count: nat)
    ensures BatchFrame(s, StopBatch(s, begin, count))
    decreases count
  {
    if count != 0 && begin.Some? {
      StopBatchFrame(StopNext(s, begin.value), Next(s.lists.active, begin.value), count - 1);
    }
  }

  /** A stop goes on after its batch: it stays scheduled, waits, or is over. */
  lemma FinishBatch(cfg: Config, s: State, begin: Option<W>)
    requires Walked(s, begin) && !s.ops.scheduled
    requires Tally(s) && Capacity(cfg, s) && Parked(s) && (s.extern.ExtWork? || s.extern.ExtStop?)
    requires s.intern.IntStop? && !s.accept.AcceptReady?
    ensures var r := ContinueStop(ScheduleIfMore(StopBatch(s, begin, cfg.maxStopping)));
            Core(cfg, r) && !r.intern.IntWork? && r.past.broken == s.past.broken && SameStop(s, r)
  {
    StopBatchWalks(s, begin, cfg.maxStopping);
    StopBatchFrame(s, begin, cfg.maxStopping);
    var b := StopBatch(s, begin, cfg.maxStopping);
    BatchMid(cfg, s, b);
    ContinueStopKeeps(cfg, ScheduleIfMore(b));
  }

  lemma BatchMid(cfg: Config, s: State, b: State)
    requires BatchFrame(s, b) && Walked(b, b.lists.stoppingEnd) && !s.ops.scheduled
    requires Tally(s) && Capacity(cfg, s) && Parked(s) && (s.extern.ExtWork? || s.extern.ExtStop?)
    requires s.intern.IntStop? && !s.accept.AcceptReady?
    ensures Mid(cfg, ScheduleIfMore(b))
  {
  }

  lemma StartStopKeeps(cfg: Config, s: State, error: Error)
    requires Mid(cfg, s) && s.intern.IntWork? && error.Failed()
    ensures var r := StartStop(cfg, s, error);
            Core(cfg, r) && !r.intern.IntWork? && r.past.broken == s.past.broken && SameStop(s, r)
  {
    var r := StopBegun(s, error);
    FinishBatch(cfg, r, Front(r.lists.active));
  }

  lemma Unscheduled(s: State)
    requires Book(s) && Cursor(s) && s.intern.IntStop? && s.ops.scheduled
    ensures var r := s.(pending := s.pending - 1, ops := s.ops.(scheduled := false));
            Walked(r, r.lists.stoppingEnd)
  {
  }

  lemma StopScheduledKeeps(cfg: Config, s: State)
    requires Inv(cfg, s) && s.ops.scheduled
    ensures var r := HandleStopScheduled(cfg, s);
            Core(cfg, r) && !r.intern.IntWork? && r.past.broken == s.past.broken && SameStop(s, r)
  {
    var r := s.(pending := s.pending - 1, ops := s.ops.(scheduled := false));
    Unscheduled(s);
    FinishBatch(cfg, r, r.lists.stoppingEnd);
  }

  // ----- working

  /** What the factory and the allocator may answer. */
  predicate Supply(s: State, env: Env, alloc: Option<W>) {
    && env.session !in s.past.held
    && (alloc.Some? ==> alloc.value !in s.views)
  }

  /** A manager that starts to serve, goes on serving or is stopping. */
  ghost predicate Going(cfg: Config, s: State) {
    && Mid(cfg, s) && !s.intern.IntStopped?
    && (s.intern.IntWork? ==> s.extern.ExtWork?)
    && (s.intern.IntStop? ==> !s.accept.AcceptReady? && (s.lists.stoppingEnd.Some? ==> s.ops.scheduled))
  }

  ghost predicate Settles(cfg: Config, s: State, r: State) {
    Core(cfg, r) && r.past.broken == s.past.broken && SameStop(s, r)
  }

  /** A session was created and is waited for, or no session could be had. */
  lemma CreateKeeps(cfg: Config, s: State, env: Env, alloc: Option<W>)
    requires Going(cfg, s) && s.intern.IntWork? && Supply(s, env, alloc)
    requires s.accept.AcceptReady? && |s.lists.active| < cfg.maxSessions
    ensures var (r, w, error) := CreateSession(s, env, alloc);
            if w.None? then error.Failed() && r == s.(past := r.past) && r.past.held == s.past.held
                            && Ledger(r.past) && r.past.uncounted == s.past.uncounted
                            && r.past.broken == s.past.broken
            else
              && error == Success && r.lists.active == s.lists.active && r.past.broken == s.past.broken
              && Settles(cfg, s, StartAcceptSession(r.(acceptError := error), w.value))
  {
    var (r, w, error) := CreateSession(s, env, alloc);
    if !env.create.Failed() {
      TakeLedger(s.past, env.session);
    }
    if w.Some? {
      if s.lists.recycled != [] {
        TakeRecycledAt(s, env.session, r.stats);
      } else {
        TakeNewAt(s, w.value, env.session);
      }
      AcceptStarts(r, w.value, env.session);
      var q := StartAcceptSession(r.(acceptError := error), w.value);
      assert Book(q) by { assert Book(StartAcceptSession(r, w.value)); }
    }
  }

  lemma NextAcceptKeeps(cfg: Config, s: State, env: Env, alloc: Option<W>)
    requires Going(cfg, s) && s.intern.IntWork? && Supply(s, env, alloc)
    requires s.accept.AcceptReady? && |s.lists.active| < cfg.maxSessions
    ensures Settles(cfg, s, NextAccept(cfg, s, env, alloc))
  {
    CreateKeeps(cfg, s, env, alloc);
    var (r, w, error) := CreateSession(s, env, alloc);
    if error.Failed() && s.lists.active == [] {
      StartStopKeeps(cfg, r.(acceptError := error).Accepting(AcceptStopped), error);
    }
  }

  lemma ContinueWorkKeeps(cfg: Config, s: State, env: Env, alloc: Option<W>)
    requires Going(cfg, s) && s.intern.IntWork? && Supply(s, env, alloc)
    ensures Settles(cfg, s, ContinueWork(cfg, s, env, alloc))
  {
    if s.lists.active == [] && s.accept.AcceptStopped? {
      StartStopKeeps(cfg, s, s.acceptError);
    } else if s.accept.AcceptReady? && |s.lists.active| < cfg.maxSessions {
      if !s.acceptorOpen && env.open.Failed() {
        var r := s.(acceptError := env.open, accept := AcceptStopped);
        if r.lists.active == [] {
          StartStopKeeps(cfg, r, env.open);
        }
      } else {
        NextAcceptKeeps(cfg, if s.acceptorOpen then s else s.(acceptorOpen := true, acceptError := Success), env, alloc);
      }
    }
  }

  lemma ContinueKeeps(cfg: Config, s: State, env: Env, alloc: Option<W>)
    requires Going(cfg, s) && (s.intern.IntWork? ==> Supply(s, env, alloc))
    ensures Settles(cfg, s, Continue(cfg, s, env, alloc))
  {
    if s.intern.IntWork? {
      ContinueWorkKeeps(cfg, s, env, alloc);
    } else {
      ContinueStopKeeps(cfg, s);
    }
  }
}

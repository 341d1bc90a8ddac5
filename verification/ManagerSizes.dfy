/** How much a session manager does at once and keeps: the sessions one batch of a
    stop tells to stop, the wrappers it recycles, and the sizes it reports. */
module ManagerSizes {
  import opened Errors
  import opened ExternRequests
  import opened SessionWrappers
  import opened ManagerSpec
  import opened ManagerLists
  import opened ManagerBooks
  import opened ManagerProofs
  import opened ManagerCompletions
  import opened ManagerSteps
  import opened ManagerDrain
  import opened ManagerOwnership

  // ----- batches

  function Least(a: nat, b: nat): nat { if a <= b then a else b }

  /** A batch passes exactly `count` sessions, or all that are left. */
  lemma {:induction false} BatchWalks(s: State, begin: Option<W>, count: nat)
    requires NoDup(s.lists.active) && (begin.Some? ==> begin.value in s.lists.active)
    ensures var r := StopBatch(s, begin, count);
            |From(s.lists.active, r.lists.stoppingEnd)|
              == |From(s.lists.active, begin)| - Least(count, |From(s.lists.active, begin)|)
    decreases count
  {
    if count != 0 && begin.Some? {
      NextBegins(s.lists.active, begin.value);
      StopBatchUnfolds(s, begin, count);
      BatchWalks(StopNext(s, begin.value), Next(s.lists.active, begin.value), count - 1);
    } else {
      FromMembers(s.lists.active, begin);
      StopBatchEnds(s, begin, count);
    }
  }

  /** And tells at most that many to stop. */
  lemma {:induction false} BatchStops(s: State, begin: Option<W>, count: nat)
    ensures |StopBatch(s, begin, count).ops.stopping| <= |s.ops.stopping| + count
    decreases count
  {
    if count != 0 && begin.Some? {
      StopBatchUnfolds(s, begin, count);
      var q := StopNext(s, begin.value);
      assert |q.ops.stopping| <= |s.ops.stopping| + 1;
      BatchStops(q, Next(s.lists.active, begin.value), count - 1);
    } else {
      StopBatchEnds(s, begin, count);
    }
  }

  lemma ContinueStopLists(s: State)
    ensures var r := ContinueStop(s); r.lists == s.lists && r.ops == s.ops && r.stats == s.stats
  {
  }

  /** What one batch leaves to the next. */
  lemma BatchLeaves(cfg: Config, s: State, begin: Option<W>)
    requires NoDup(s.lists.active) && (begin.Some? ==> begin.value in s.lists.active)
    ensures var r := ContinueStop(ScheduleIfMore(StopBatch(s, begin, cfg.maxStopping)));
            && r.lists.active == s.lists.active && |r.ops.stopping| <= |s.ops.stopping| + cfg.maxStopping
            && |From(r.lists.active, r.lists.stoppingEnd)|
                 == |From(s.lists.active, begin)| - Least(cfg.maxStopping, |From(s.lists.active, begin)|)
  {
    hide StopBatch, ContinueStop;
    var b := StopBatch(s, begin, cfg.maxStopping);
    BatchWalks(s, begin, cfg.maxStopping);
    BatchStops(s, begin, cfg.maxStopping);
    StopBatchFrame(s, begin, cfg.maxStopping);
    ContinueStopLists(ScheduleIfMore(b));
  }

  /** A scheduled batch takes the cursor past as many sessions as a batch may stop,
      or to the end of the list, and tells no more than that to stop. */
  lemma ScheduledWalks(cfg: Config, s: State)
    requires Inv(cfg, s) && s.ops.scheduled
    ensures var r := HandleStopScheduled(cfg, s);
            && |r.ops.stopping| <= |s.ops.stopping| + cfg.maxStopping
            && |From(r.lists.active, r.lists.stoppingEnd)|
                 == |From(s.lists.active, s.lists.stoppingEnd)|
                    - Least(cfg.maxStopping, |From(s.lists.active, s.lists.stoppingEnd)|)
  {
    hide StopBatch, ContinueStop;
    var q := s.(pending := s.pending - 1, ops := s.ops.(scheduled := false));
    BatchLeaves(cfg, q, q.lists.stoppingEnd);
  }

  /** A stop request passes the first batch of the sessions at once. */
  lemma StopWalks(cfg: Config, s: State, id: nat, env: Env, alloc: Option<W>)
    requires Inv(cfg, s) && Enabled(s, Event.Stop(id), env, alloc) && s.intern.IntWork? && !s.extern.ExtStop?
    ensures var r := Step(cfg, s, Event.Stop(id), env, alloc);
            && |r.ops.stopping| <= |s.ops.stopping| + cfg.maxStopping && r.lists.active == s.lists.active
            && |From(r.lists.active, r.lists.stoppingEnd)|
                 == |s.lists.active| - Least(cfg.maxStopping, |s.lists.active|)
  {
    hide StopBatch, ContinueStop;
    var i := s.(mail := IssueMail(s.mail, id));
    var q := i.(extern := ExtStop, mail := CompleteExternWait(i.mail, OperationAborted));
    var b := StopBegun(q, OperationAborted);
    BatchLeaves(cfg, b, Front(b.lists.active));
    assert |From(s.lists.active, Front(s.lists.active))| == |s.lists.active|;
  }

  lemma NothingToStop(cfg: Config, s: State, error: Error)
    requires s.lists.active == []
    ensures var r := StartStop(cfg, s, error);
            && r.ops == s.ops && r.stats == s.stats
            && r.lists.active == s.lists.active && r.lists.recycled == s.lists.recycled
  {
    var b := StopBegun(s, error);
    StopBatchEnds(b, None, cfg.maxStopping);
  }

  /** Going on tells no session to stop and serves the same ones; at most the
      first of the recycled wrappers is used again, for the session that is to be
      accepted next. */
  predicate GoesOn(s: State, r: State) {
    && r.ops.stopping == s.ops.stopping && r.lists.active == s.lists.active
    && r.stats.active == s.stats.active && r.stats.maxActive == s.stats.maxActive
    && (if s.lists.recycled != [] && r.lists.recycled == s.lists.recycled[1..] then
          r.stats.recycled == |r.lists.recycled| && r.ops.accepting == Some(s.lists.recycled[0])
        else r.lists.recycled == s.lists.recycled && r.stats.recycled == s.stats.recycled)
  }

  /** A wrapper that waits for a connection with a new session is the first of the
      recycled ones, and a new wrapper only when there is none. */
  predicate Reuses(s: State, alloc: Option<W>, r: State) {
    r.ops.accepting.Some? && s.ops.accepting.None? ==>
      if s.lists.recycled != [] then r.ops.accepting == Some(s.lists.recycled[0]) else r.ops.accepting == alloc
  }

  lemma NextAcceptGoesOn(cfg: Config, s: State, env: Env, alloc: Option<W>)
    ensures GoesOn(s, NextAccept(cfg, s, env, alloc)) && Reuses(s, alloc, NextAccept(cfg, s, env, alloc))
  {
    hide StartStop;
    var (q, w, error) := CreateSession(s, env, alloc);
    if q.lists.active == [] {
      NothingToStop(cfg, q.(acceptError := error).Accepting(AcceptStopped), error);
    }
  }

  lemma WorkGoesOn(cfg: Config, s: State, env: Env, alloc: Option<W>)
    ensures GoesOn(s, ContinueWork(cfg, s, env, alloc)) && Reuses(s, alloc, ContinueWork(cfg, s, env, alloc))
  {
    hide StartStop, NextAccept;
    var c := s.Check(s.intern.IntWork?);
    if c.lists.active == [] {
      NothingToStop(cfg, c, c.acceptError);
      NothingToStop(cfg, c.(acceptError := env.open, accept := AcceptStopped), env.open);
    }
    NextAcceptGoesOn(cfg, if c.acceptorOpen then c else c.(acceptorOpen := true, acceptError := Success), env, alloc);
  }

  lemma ContinueGoesOn(cfg: Config, s: State, env: Env, alloc: Option<W>)
    ensures GoesOn(s, Continue(cfg, s, env, alloc)) && Reuses(s, alloc, Continue(cfg, s, env, alloc))
  {
    hide ContinueWork, ContinueStop;
    WorkGoesOn(cfg, s, env, alloc);
    ContinueStopLists(s);
  }

  // ----- one completion

  function Greater(a: nat, b: nat): nat { if a <= b then b else a }

  /** What a completion makes of the sizes: its wrapper is kept for another session
      exactly if it was released and there is room for it. */
  predicate Resizes(cfg: Config, s: State, c: State, w: W) {
    && c.stats.active == |c.lists.active|
    && c.stats.maxActive == Greater(s.stats.maxActive, |c.lists.active|)
    && |c.ops.stopping| <= |s.ops.stopping| + 1
    && (if Holds(s, w) && !Holds(c, w) && |s.lists.recycled| < cfg.recycledSessions then
          c.lists.recycled == [w] + s.lists.recycled && c.stats.recycled == |c.lists.recycled|
        else c.lists.recycled == s.lists.recycled && c.stats.recycled == s.stats.recycled)
  }

  /** Every session served is among those counted at the peak. */
  predicate Peaked(s: State) { s.stats.active == |s.lists.active| <= s.stats.maxActive }

  lemma RecycleSizes(cfg: Config, s: State, w: W)
    requires Holds(s, w)
    ensures var r := Recycle(cfg, s, w);
            && r.lists.active == s.lists.active && r.ops == s.ops
            && r.stats.active == s.stats.active && r.stats.maxActive == s.stats.maxActive
            && (if !Holds(r, w) && |s.lists.recycled| < cfg.recycledSessions then
                  r.lists.recycled == [w] + s.lists.recycled && r.stats.recycled == |r.lists.recycled|
                else r.lists.recycled == s.lists.recycled && r.stats.recycled == s.stats.recycled)
  {
  }

  lemma OverSizes(cfg: Config, s: State, w: W)
    requires Holds(s, w) && NoDup(s.lists.active) && Peaked(s)
    ensures Resizes(cfg, s, Recycle(cfg, RemoveFromActive(Mark(s, w, WrapperState.Stopped), w), w), w)
  {
    hide Recycle;
    EraseMembers(s.lists.active, w);
    RecycleSizes(cfg, RemoveFromActive(Mark(s, w, WrapperState.Stopped), w), w);
  }

  lemma StartSizes(cfg: Config, s: State, w: W, error: Error)
    requires Holds(s, w) && NoDup(s.lists.active) && Peaked(s)
    ensures Resizes(cfg, s, SessionStartDone(cfg, s, w, error), w)
  {
    hide Recycle, RemoveFromActive;
    var r := StartCompleted(s, w);
    RecycleSizes(cfg, r.Count(r.stats.SessionStopped(OperationAborted)), w);
    OverSizes(cfg, r.Count(r.stats.SessionStopped(error)), w);
  }

  lemma WaitSizes(cfg: Config, s: State, w: W, error: Error)
    requires Holds(s, w) && Peaked(s)
    ensures Resizes(cfg, s, SessionWaitDone(cfg, s, w, error), w)
  {
    hide Recycle;
    var r := WaitCompleted(s, w);
    RecycleSizes(cfg, r.Count(r.stats.SessionStopped(OperationAborted)), w);
  }

  lemma StopSizes(cfg: Config, s: State, w: W, error: Error)
    requires Holds(s, w) && NoDup(s.lists.active) && Peaked(s)
    ensures Resizes(cfg, s, SessionStopDone(cfg, s, w, error), w)
  {
    hide Recycle, RemoveFromActive;
    var r := StopCompleted(s, w);
    FewerStops(s, w);
    RecycleSizes(cfg, r, w);
    OverSizes(cfg, r.Check(!error.Failed()), w);
  }

  lemma FewerStops(s: State, w: W)
    ensures |s.ops.stopping - {w}| <= |s.ops.stopping|
  {
    if w in s.ops.stopping {
      assert s.ops.stopping == s.ops.stopping - {w} + {w};
    } else {
      assert s.ops.stopping == s.ops.stopping - {w};
    }
  }

  lemma AcceptSizes(cfg: Config, s: State, w: W, error: Error)
    requires Holds(s, w) && Peaked(s)
    requires s.intern.IntStop? || (s.intern.IntWork? && |s.lists.active| < cfg.maxSessions)
    ensures Resizes(cfg, s, if s.intern.IntWork? then AcceptedAtWork(cfg, s, w, error)
                            else AcceptedAtStop(cfg, s, w, error), w)
  {
    hide Recycle;
    var r, q := AcceptCompleted(s, AcceptReady, error), AcceptCompleted(s, AcceptStopped, error);
    RecycleSizes(cfg, AcceptGivenUp(r, error), w);
    RecycleSizes(cfg, if error.Failed() then q else q.Count(q.stats.SessionStopped(OperationAborted)), w);
  }

  lemma CompletionSizes(cfg: Config, s: State, event: Event, env: Env, alloc: Option<W>)
    requires Inv(cfg, s) && Enabled(s, event, env, alloc) && IsCompletion(event) && Peaked(s)
    ensures Resizes(cfg, s, Complete(cfg, s, event), event.w)
  {
    hide SessionStartDone, SessionWaitDone, SessionStopDone, AcceptedAtWork, AcceptedAtStop;
    CompletionPasses(cfg, s, event, env, alloc);
    Open(s, event.w);
    match event
    case AcceptDone(w, error) =>
      AcceptFindsRoom(cfg, s);
      AcceptSizes(cfg, s.Check(s.accept.AcceptInProgress?), w, error);
    case SessionStarted(w, error) => StartSizes(cfg, s, w, error);
    case SessionWaited(w, error) => WaitSizes(cfg, s, w, error);
    case SessionStopped(w, error) => StopSizes(cfg, s, w, error);
  }

  // ----- one step, and whole runs

  /** As many wrappers are kept as are allowed at most. */
  predicate Recycles(cfg: Config, s: State) { |s.lists.recycled| <= cfg.recycledSessions }

  predicate StepSized(cfg: Config, s: State, r: State) {
    && Peaked(r) && Recycles(cfg, r)
    && r.stats.maxActive == Greater(s.stats.maxActive, |r.lists.active|)
    && (s.stats.recycled == |s.lists.recycled| ==> r.stats.recycled == |r.lists.recycled|)
    && |r.ops.stopping| <= |s.ops.stopping| + cfg.maxStopping
  }

  lemma StopRequestSizes(cfg: Config, s: State, id: nat, env: Env, alloc: Option<W>)
    requires Inv(cfg, s) && Enabled(s, Event.Stop(id), env, alloc) && Peaked(s) && Recycles(cfg, s)
    ensures StepSized(cfg, s, Step(cfg, s, Event.Stop(id), env, alloc))
  {
    hide StopBatch, ContinueStop, Book, Parked, Cursor;
    if s.intern.IntWork? && !s.extern.ExtStop? {
      var i := s.(mail := IssueMail(s.mail, id));
      var b := StopBegun(i.(extern := ExtStop, mail := CompleteExternWait(i.mail, OperationAborted)), OperationAborted);
      StopBatchFrame(b, Front(b.lists.active), cfg.maxStopping);
      ContinueStopLists(ScheduleIfMore(StopBatch(b, Front(b.lists.active), cfg.maxStopping)));
      StopWalks(cfg, s, id, env, alloc);
    }
  }

  lemma RequestSizes(cfg: Config, s: State, event: Event, env: Env, alloc: Option<W>)
    requires Inv(cfg, s) && Enabled(s, event, env, alloc) && !IsCompletion(event) && !event.Reset?
    requires Peaked(s) && Recycles(cfg, s)
    ensures StepSized(cfg, s, Step(cfg, s, event, env, alloc))
  {
    hide ContinueWork, DoStop, StopBatch, ContinueStop;
    match event
    case Start(id) => WorkGoesOn(cfg, s.(mail := IssueMail(s.mail, id), extern := ExtWork), env, alloc);
    case Stop(id) => StopRequestSizes(cfg, s, id, env, alloc);
    case StopScheduled =>
      var q := s.(pending := s.pending - 1, ops := s.ops.(scheduled := false));
      StopBatchFrame(q, q.lists.stoppingEnd, cfg.maxStopping);
      ContinueStopLists(ScheduleIfMore(StopBatch(q, q.lists.stoppingEnd, cfg.maxStopping)));
      ScheduledWalks(cfg, s);
    case Wait(_) =>
  }

  /** No step tells more sessions to stop than one batch may, keeps more wrappers
      than allowed, or reports another size than the lists have. */
  lemma StepSizes(cfg: Config, s: State, event: Event, env: Env, alloc: Option<W>)
    requires Inv(cfg, s) && Enabled(s, event, env, alloc) && !event.Reset?
    requires Peaked(s) && Recycles(cfg, s)
    ensures StepSized(cfg, s, Step(cfg, s, event, env, alloc))
  {
    hide Complete, Continue;
    if IsCompletion(event) {
      CompletionPasses(cfg, s, event, env, alloc);
      CompletionSizes(cfg, s, event, env, alloc);
      ContinueGoesOn(cfg, Complete(cfg, s, event), env, alloc);
    } else {
      RequestSizes(cfg, s, event, env, alloc);
    }
  }

  /** The most sessions that were served at once during a run. */
  ghost function Peak(cfg: Config, s: State, run: seq<Happening>): nat
    requires Inv(cfg, s) && Runs(cfg, s, run)
    decreases |run|
  {
    if run == [] then |s.lists.active|
    else
      var h := run[0];
      StepKeeps(cfg, s, h.event, h.env, h.alloc);
      Greater(|s.lists.active|, Peak(cfg, Step(cfg, s, h.event, h.env, h.alloc), run[1..]))
  }

  /** Over every run of a new manager the reported numbers are those of the lists,
      the reported peak is the most sessions that were served at once, and never
      more wrappers are kept than allowed. */
  lemma {:induction false} SizesOverRun(cfg: Config, s: State, run: seq<Happening>)
    requires Inv(cfg, s) && Runs(cfg, s, run) && NoReset(run) && Peaked(s) && Recycles(cfg, s)
    ensures var r := After(cfg, s, run);
            && Peaked(r) && Recycles(cfg, r)
            && r.stats.maxActive == Greater(s.stats.maxActive, Peak(cfg, s, run))
            && (s.stats.recycled == |s.lists.recycled| ==> r.stats.recycled == |r.lists.recycled|)
    decreases |run|
  {
    hide Step, Enabled;
    if run != [] {
      var h := run[0];
      assert !h.event.Reset?;
      StepKeeps(cfg, s, h.event, h.env, h.alloc);
      StepSizes(cfg, s, h.event, h.env, h.alloc);
      SizesOverRun(cfg, Step(cfg, s, h.event, h.env, h.alloc), run[1..]);
    }
  }

  /** When a session is given back its wrapper is kept if there is room, and the
      next session gets a kept wrapper before a new one is made. */
  lemma WrappersReused(cfg: Config, s: State, event: Event, env: Env, alloc: Option<W>)
    requires Inv(cfg, s) && Enabled(s, event, env, alloc) && IsCompletion(event) && Peaked(s)
    ensures var c, r := Midway(cfg, s, event), Step(cfg, s, event, env, alloc);
            && (Holds(s, event.w) && !Holds(c, event.w) ==>
                  c.lists.recycled == (if |s.lists.recycled| < cfg.recycledSessions then [event.w] else []) + s.lists.recycled)
            && (r.ops.accepting.Some? && c.ops.accepting.None? ==>
                  if c.lists.recycled != [] then r.ops.accepting == Some(c.lists.recycled[0])
                  else r.ops.accepting == alloc)
  {
    hide Complete, Continue;
    CompletionPasses(cfg, s, event, env, alloc);
    CompletionSizes(cfg, s, event, env, alloc);
    ContinueGoesOn(cfg, Complete(cfg, s, event), env, alloc);
    assert [] + s.lists.recycled == s.lists.recycled;
  }
}

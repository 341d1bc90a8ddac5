/** Who owns a session, for how long, and what it is asked meanwhile. */
module ManagerOwnership {
  import opened Errors
  import opened ExternRequests
  import opened SessionWrappers
  import opened ManagerSpec
  import opened ManagerLists
  import opened ManagerBooks
  import opened ManagerProofs
  import opened ManagerCompletions
  import opened ManagerSteps

  // ----- what a step leaves alone

  predicate Holds(s: State, w: W) { w in s.views && s.views[w].session.Some? }

  /** The wrapper still holds the session it held. */
  predicate StillHolds(s: State, r: State, w: W) {
    Holds(s, w) && Holds(r, w) && r.views[w].session == s.views[w].session
  }

  /** A wrapper was left alone, or its session was told to stop. */
  predicate LeftAlone(v: View, p: Place, r: View, q: Place) {
    || (r == v && q == p)
    || (p.active && !v.state.Stop? && r == Asked(v, AskStop) && q == p.(stopping := true))
  }

  ghost predicate Alone(s: State, r: State, w: W) {
    if Holds(s, w) then
      w in r.views && LeftAlone(s.views[w], PlaceOf(s.lists, s.ops, w), r.views[w], PlaceOf(r.lists, r.ops, w))
    else !Holds(r, w) && (w in s.views ==> w in r.views)
  }

  /** A wrapper that held no session was given the new one and waits to be
      accepted. */
  predicate Taken(s: State, r: State, w: W, i: nat) {
    !Holds(s, w) && w in r.views && r.views[w] == Attached(i) && r.ops.accepting == Some(w)
  }

  ghost predicate Carried(s: State, r: State, w: W, i: nat) { Alone(s, r, w) || Taken(s, r, w, i) }

  lemma CarriedOn(s: State, q: State, r: State, w: W, i: nat)
    requires Alone(s, q, w)
    ensures Alone(q, r, w) ==> Alone(s, r, w)
    ensures Carried(q, r, w, i) ==> Carried(s, r, w, i)
  {
  }

  lemma {:induction false} BatchAlone(s: State, begin: Option<W>, count: nat, w: W)
    requires begin.Some? ==> begin.value in s.lists.active
    requires NoDup(s.lists.active) && (w in s.lists.active ==> Holds(s, w))
    ensures Alone(s, StopBatch(s, begin, count), w)
    decreases count
  {
    hide StopBatch;
    if count != 0 && begin.Some? {
      var q := StopNext(s, begin.value);
      StopBatchUnfolds(s, begin, count);
      NextBegins(s.lists.active, begin.value);
      BatchAlone(q, Next(q.lists.active, begin.value), count - 1, w);
      CarriedOn(s, q, StopBatch(s, begin, count), w, 0);
    } else {
      StopBatchEnds(s, begin, count);
    }
  }

  lemma ContinueStopAlone(s: State, w: W)
    ensures Alone(s, ContinueStop(s), w)
  {
  }

  /** One batch of the stop and what follows it. */
  lemma BatchContinues(cfg: Config, s: State, begin: Option<W>, w: W)
    requires begin.Some? ==> begin.value in s.lists.active
    requires NoDup(s.lists.active) && (w in s.lists.active ==> Holds(s, w))
    ensures Alone(s, ContinueStop(ScheduleIfMore(StopBatch(s, begin, cfg.maxStopping))), w)
  {
    hide StopBatch, ContinueStop;
    var b := StopBatch(s, begin, cfg.maxStopping);
    BatchAlone(s, begin, cfg.maxStopping, w);
    ContinueStopAlone(ScheduleIfMore(b), w);
    CarriedOn(s, b, ScheduleIfMore(b), w, 0);
    CarriedOn(s, ScheduleIfMore(b), ContinueStop(ScheduleIfMore(b)), w, 0);
  }

  lemma StartStopAlone(cfg: Config, s: State, error: Error, w: W)
    requires NoDup(s.lists.active) && (w in s.lists.active ==> Holds(s, w))
    ensures Alone(s, StartStop(cfg, s, error), w)
  {
    hide StopBatch, ContinueStop;
    var b := StopBegun(s, error);
    BatchContinues(cfg, b, Front(b.lists.active), w);
    CarriedOn(s, b, StartStop(cfg, s, error), w, 0);
  }

  lemma ActiveHolds(s: State, w: W)
    requires Book(s)
    ensures w in s.lists.active ==> Holds(s, w)
    ensures w in s.lists.recycled ==> !Holds(s, w)
    ensures s.accept.AcceptReady? ==> s.ops.accepting.None?
  {
    if w in s.views {
      Open(s, w);
    }
  }

  lemma ScheduledAlone(cfg: Config, s: State, w: W)
    requires Inv(cfg, s)
    ensures Alone(s, HandleStopScheduled(cfg, s), w)
  {
    hide StopBatch, ContinueStop;
    ActiveHolds(s, w);
    var r := s.(pending := s.pending - 1, ops := s.ops.(scheduled := false));
    BatchContinues(cfg, r, r.lists.stoppingEnd, w);
    CarriedOn(s, r, HandleStopScheduled(cfg, s), w, 0);
  }

  /** A session was created and is waited for, or no session could be had. */
  lemma CreateCarries(s: State, env: Env, alloc: Option<W>, w: W)
    requires Book(s) && s.accept.AcceptReady? && Supply(s, env, alloc)
    ensures var (r, x, error) := CreateSession(s, env, alloc);
            if x.None? then error.Failed() && r == s.(past := r.past)
            else
              && !error.Failed()
              && Carried(s, StartAcceptSession(r.(acceptError := error), x.value), w, env.session)
  {
    ActiveHolds(s, w);
    if s.lists.recycled != [] {
      ActiveHolds(s, s.lists.recycled[0]);
    }
  }

  lemma NextAcceptCarries(cfg: Config, s: State, env: Env, alloc: Option<W>, w: W)
    requires Book(s) && s.accept.AcceptReady? && Supply(s, env, alloc)
    ensures Carried(s, NextAccept(cfg, s, env, alloc), w, env.session)
  {
    hide StartStop, CreateSession;
    ActiveHolds(s, w);
    CreateCarries(s, env, alloc, w);
    var (r, x, error) := CreateSession(s, env, alloc);
    var q := r.(acceptError := error).Accepting(AcceptStopped);
    if x.None? && q.lists.active == [] {
      StartStopAlone(cfg, q, error, w);
      CarriedOn(s, q, StartStop(cfg, q, error), w, 0);
    }
  }

  lemma ContinueWorkCarries(cfg: Config, s: State, env: Env, alloc: Option<W>, w: W)
    requires Book(s) && s.intern.IntWork? && Supply(s, env, alloc)
    ensures Carried(s, ContinueWork(cfg, s, env, alloc), w, env.session)
  {
    hide NextAccept, StartStop;
    var r := ContinueWork(cfg, s, env, alloc);
    if s.lists.active == [] && s.accept.AcceptStopped? {
      StartStopAlone(cfg, s, s.acceptError, w);
    } else if s.accept.AcceptReady? && |s.lists.active| < cfg.maxSessions {
      if !s.acceptorOpen && env.open.Failed() {
        var q := s.(acceptError := env.open, accept := AcceptStopped);
        if q.lists.active == [] {
          StartStopAlone(cfg, q, env.open, w);
          CarriedOn(s, q, r, w, 0);
        }
      } else {
        var q := if s.acceptorOpen then s else s.(acceptorOpen := true, acceptError := Success);
        NextAcceptCarries(cfg, q, env, alloc, w);
        CarriedOn(s, q, r, w, env.session);
      }
    }
  }

  lemma ContinueCarries(cfg: Config, s: State, env: Env, alloc: Option<W>, w: W)
    requires Book(s) && Supply(s, env, alloc)
    ensures Carried(s, Continue(cfg, s, env, alloc), w, env.session)
  {
    hide ContinueWork, ContinueStop;
    if s.intern.IntWork? {
      ContinueWorkCarries(cfg, s, env, alloc, w);
    } else {
      ContinueStopAlone(s, w);
    }
  }

  // ----- what a completion makes of its wrapper

  /** Recycling releases the session once none of its operations is outstanding. */
  predicate Parts(v: View, p: Place, r: View, q: Place) {
    if v.pending == 0 then r == v.(session := None) else r == v && q == p
  }

  /** What becomes of the wrapper a completion is for, whether the manager works
      or stops: from `v` and `p` to `r` and `q`. */
  predicate Turn(working: bool, event: Event, v: View, p: Place, r: View, q: Place)
    requires IsCompletion(event)
  {
    match event
    case AcceptDone(_, error) =>
      if error.Failed() || !working then r == v.(session := None)
      else r == Asked(v, AskStart) && q == p.(accepting := false, active := true, starting := true)
    case SessionStarted(_, error) =>
      var u, o := v.(pending := v.pending - 1), p.(starting := false);
      if !v.state.Start? then Parts(u, o, r, q)
      else if error.Failed() then Parts(u.(state := WrapperState.Stopped), o.(active := false), r, q)
      else if working then r == Asked(u.(state := WrapperState.Work), AskWait) && q == o.(waiting := true)
      else r == Asked(u, AskStop) && q == o.(stopping := true)
    case SessionWaited(_, _) =>
      var u, o := v.(pending := v.pending - 1), p.(waiting := false);
      if v.state.Work? then r == Asked(u, AskStop) && q == o.(stopping := true)
      else Parts(u, o, r, q)
    case SessionStopped(_, _) =>
      Parts(v.(pending := v.pending - 1, state := WrapperState.Stopped),
            p.(stopping := false, active := false), r, q)
  }

  /** The same in both states. */
  ghost predicate Same(s: State, r: State, w: W) {
    && (w in s.views <==> w in r.views) && (w in s.views ==> r.views[w] == s.views[w])
    && PlaceOf(r.lists, r.ops, w) == PlaceOf(s.lists, s.ops, w)
  }

  lemma RecycleParts(cfg: Config, s: State, w: W, x: W)
    requires w in s.views
    ensures var r := Recycle(cfg, s, w);
            && w in r.views
            && Parts(s.views[w], PlaceOf(s.lists, s.ops, w), r.views[w], PlaceOf(r.lists, r.ops, w))
            && (x != w ==> Same(s, r, x))
  {
  }

  /** A session that is over leaves the list and is recycled. */
  lemma OverParts(cfg: Config, s: State, w: W, x: W)
    requires w in s.views && NoDup(s.lists.active)
    ensures var r := Recycle(cfg, RemoveFromActive(Mark(s, w, WrapperState.Stopped), w), w);
            && w in r.views
            && Parts(s.views[w].(state := WrapperState.Stopped), PlaceOf(s.lists, s.ops, w).(active := false),
                     r.views[w], PlaceOf(r.lists, r.ops, w))
            && (x != w ==> Same(s, r, x))
  {
    hide Recycle;
    EraseMembers(s.lists.active, w);
    RecycleParts(cfg, RemoveFromActive(Mark(s, w, WrapperState.Stopped), w), w, x);
  }

  /** What a completion does: its own wrapper takes its turn, the others are as
      they were. */
  ghost predicate Turned(s: State, q: State, event: Event, x: W)
    requires IsCompletion(event)
  {
    var w := event.w;
    && w in s.views && w in q.views
    && Turn(s.intern.IntWork?, event, s.views[w], PlaceOf(s.lists, s.ops, w), q.views[w], PlaceOf(q.lists, q.ops, w))
    && (x != w ==> Same(s, q, x))
  }

  /** A successful start: the session works on, or is told to stop. */
  lemma StartedTurns(cfg: Config, s: State, w: W, x: W)
    requires w in s.views && s.views[w].state.Start?
    ensures Turned(s, SessionStartDone(cfg, s, w, Success), SessionStarted(w, Success), x)
  {
  }

  lemma StartTurns(cfg: Config, s: State, w: W, error: Error, x: W)
    requires w in s.views && NoDup(s.lists.active)
    ensures Turned(s, SessionStartDone(cfg, s, w, error), SessionStarted(w, error), x)
  {
    hide Recycle, RemoveFromActive, NoDup, StartSessionStop, StartSessionWait, Asked;
    var c := StartCompleted(s, w);
    if !ViewOf(c, w).state.Start? {
      RecycleParts(cfg, c.Count(c.stats.SessionStopped(OperationAborted)), w, x);
    } else if error.Failed() {
      OverParts(cfg, c.Count(c.stats.SessionStopped(error)), w, x);
    } else {
      StartedTurns(cfg, s, w, x);
    }
  }

  lemma WaitTurns(cfg: Config, s: State, w: W, error: Error, x: W)
    requires w in s.views
    ensures Turned(s, SessionWaitDone(cfg, s, w, error), SessionWaited(w, error), x)
  {
    hide Recycle;
    var c := WaitCompleted(s, w);
    if !ViewOf(c, w).state.Work? {
      RecycleParts(cfg, c.Count(c.stats.SessionStopped(OperationAborted)), w, x);
    }
  }

  lemma StopTurns(cfg: Config, s: State, w: W, error: Error, x: W)
    requires Book(s) && w in s.ops.stopping
    ensures Turned(s, SessionStopDone(cfg, s, w, error), SessionStopped(w, error), x)
  {
    hide Recycle, RemoveFromActive;
    Open(s, w);
    var c := StopCompleted(s, w);
    OverParts(cfg, c.Check(!error.Failed()), w, x);
  }

  lemma AcceptAtStopTurns(cfg: Config, s: State, w: W, error: Error, x: W)
    requires Book(s) && s.ops.accepting == Some(w) && s.intern.IntStop?
    ensures Turned(s, AcceptedAtStop(cfg, s, w, error), AcceptDone(w, error), x)
  {
    hide Recycle;
    Open(s, w);
    var c := AcceptCompleted(s, AcceptStopped, error);
    RecycleParts(cfg, if error.Failed() then c else c.Count(c.stats.SessionStopped(OperationAborted)), w, x);
  }

  lemma AcceptFailedTurns(cfg: Config, s: State, w: W, error: Error, x: W)
    requires Book(s) && s.ops.accepting == Some(w) && s.intern.IntWork? && error.Failed()
    ensures Turned(s, AcceptedAtWork(cfg, s, w, error), AcceptDone(w, error), x)
  {
    hide Recycle;
    Open(s, w);
    RecycleParts(cfg, AcceptGivenUp(AcceptCompleted(s, AcceptReady, error), error), w, x);
  }

  lemma AcceptedTurns(cfg: Config, s: State, w: W, x: W)
    requires Core(cfg, s) && s.ops.accepting == Some(w) && s.intern.IntWork?
    ensures Turned(s, AcceptedAtWork(cfg, s, w, Success), AcceptDone(w, Success), x)
  {
    hide Recycle;
    AcceptFindsRoom(cfg, s);
  }

  lemma AcceptTurns(cfg: Config, s: State, w: W, error: Error, x: W)
    requires Core(cfg, s) && s.ops.accepting == Some(w) && !s.intern.IntStopped?
    ensures Turned(s, if s.intern.IntWork? then AcceptedAtWork(cfg, s, w, error) else AcceptedAtStop(cfg, s, w, error),
                   AcceptDone(w, error), x)
  {
    hide AcceptedAtWork, AcceptedAtStop, Turned;
    if s.intern.IntStop? {
      AcceptAtStopTurns(cfg, s, w, error, x);
    } else if error.Failed() {
      AcceptFailedTurns(cfg, s, w, error, x);
    } else {
      AcceptedTurns(cfg, s, w, x);
    }
  }

  lemma CompleteTurns(cfg: Config, s: State, event: Event, env: Env, alloc: Option<W>, x: W)
    requires Inv(cfg, s) && Enabled(s, event, env, alloc) && IsCompletion(event) && !s.intern.IntStopped?
    ensures Turned(s, Complete(cfg, s, event), event, x)
  {
    SubjectKnown(cfg, s, event, env, alloc);
    match event
    case AcceptDone(w, error) =>
      AcceptFindsRoom(cfg, s);
      AcceptTurns(cfg, s, w, error, x);
    case SessionStarted(w, error) => StartTurns(cfg, s, w, error, x);
    case SessionWaited(w, error) => WaitTurns(cfg, s, w, error, x);
    case SessionStopped(w, error) => StopTurns(cfg, s, w, error, x);
  }

  // ----- one step

  /** The point of a step at which the manager continues. */
  function Midway(cfg: Config, s: State, event: Event): State {
    if IsCompletion(event) then Complete(cfg, s, event) else s
  }

  lemma StartCarries(cfg: Config, s: State, id: nat, env: Env, alloc: Option<W>, x: W)
    requires Inv(cfg, s) && Supply(s, env, alloc)
    ensures Carried(s, DoStart(cfg, s.(mail := IssueMail(s.mail, id)), id, env, alloc), x, env.session)
  {
    hide ContinueWork;
    if s.extern.ExtReady? {
      var q := s.(mail := IssueMail(s.mail, id), extern := ExtWork);
      ContinueWorkCarries(cfg, q, env, alloc, x);
      CarriedOn(s, q, ContinueWork(cfg, q, env, alloc), x, env.session);
    }
  }

  lemma StopAlone(cfg: Config, s: State, id: nat, x: W)
    requires Inv(cfg, s)
    ensures Alone(s, DoStop(cfg, s.(mail := IssueMail(s.mail, id)), id), x)
  {
    hide StartStop;
    ActiveHolds(s, x);
    if s.intern.IntWork? && !s.extern.ExtStop? && !s.extern.ExtStopped? {
      var m := IssueMail(s.mail, id);
      var q := s.(extern := ExtStop, mail := CompleteExternWait(m, OperationAborted));
      StartStopAlone(cfg, q, OperationAborted, x);
      CarriedOn(s, q, StartStop(cfg, q, OperationAborted), x, 0);
    }
  }

  lemma ResetAlone(s: State, freeRecycled: bool, x: W)
    requires Book(s) && s.pending == 0
    ensures Alone(s, DoReset(s, freeRecycled), x)
  {
    NothingOutstanding(s);
    assert Holds(s, x) ==> s.views[x].session.value in HeldBy(s.views);
  }

  /** Over one step the wrapper of a session takes its turn if the step is a
      completion for it; otherwise, and after it, the wrapper is left alone or
      told to stop its session.  Only a wrapper that holds no session is given the
      step's new one, and then it waits to be accepted. */
  lemma StepKept(cfg: Config, s: State, event: Event, env: Env, alloc: Option<W>, x: W)
    requires Inv(cfg, s) && Enabled(s, event, env, alloc)
    ensures IsCompletion(event) ==> Turned(s, Midway(cfg, s, event), event, x)
    ensures Carried(Midway(cfg, s, event), Step(cfg, s, event, env, alloc), x, env.session)
  {
    hide DoStart, DoStop, DoReset, HandleStopScheduled, Complete, Continue, Turn;
    if IsCompletion(event) {
      CompletionPasses(cfg, s, event, env, alloc);
      CompleteTurns(cfg, s, event, env, alloc, x);
      ContinueCarries(cfg, Complete(cfg, s, event), env, alloc, x);
    } else {
      RequestCarries(cfg, s, event, env, alloc, x);
    }
  }

  lemma RequestCarries(cfg: Config, s: State, event: Event, env: Env, alloc: Option<W>, x: W)
    requires Inv(cfg, s) && Enabled(s, event, env, alloc) && !IsCompletion(event)
    ensures Carried(s, Step(cfg, s, event, env, alloc), x, env.session)
  {
    hide DoStart, DoStop, DoReset, HandleStopScheduled;
    match event
    case StopScheduled => ScheduledAlone(cfg, s, x);
    case Reset(freeRecycled) => ResetAlone(s, freeRecycled, x);
    case Start(id) => StartCarries(cfg, s, id, env, alloc, x);
    case Stop(id) => StopAlone(cfg, s, id, x);
    case Wait(_) =>
  }

  /** The wrapper still holds the session it held and only asked it more, or it
      was given the new session `i`. */
  predicate Kept(s: State, r: State, w: W, i: nat) {
    Holds(r, w) ==>
      || (Holds(s, w) && r.views[w].session == s.views[w].session && s.views[w].asked <= r.views[w].asked)
      || (r.views[w] == Attached(i) && r.ops.accepting == Some(w))
  }

  lemma TurnKeeps(working: bool, event: Event, v: View, p: Place, r: View, q: Place)
    requires IsCompletion(event) && Turn(working, event, v, p, r, q) && r.session.Some?
    ensures r.session == v.session && v.asked <= r.asked
  {
  }

  lemma SessionKept(cfg: Config, s: State, event: Event, env: Env, alloc: Option<W>, w: W)
    requires Inv(cfg, s) && Enabled(s, event, env, alloc)
    ensures Kept(s, Step(cfg, s, event, env, alloc), w, env.session)
    ensures w in s.views ==> w in Step(cfg, s, event, env, alloc).views
  {
    hide Turn, Step, Complete, Inv;
    var q, r := Midway(cfg, s, event), Step(cfg, s, event, env, alloc);
    StepKept(cfg, s, event, env, alloc, w);
    if IsCompletion(event) && w == event.w && Holds(q, w) {
      TurnKeeps(s.intern.IntWork?, event, s.views[w], PlaceOf(s.lists, s.ops, w), q.views[w], PlaceOf(q.lists, q.ops, w));
    }
  }

  /** Between `s` and `r` the session of `w` stayed with `w` and was only asked
      more; or it was released, and nothing of it is left. */
  ghost predicate Owned(s: State, r: State, w: W)
    requires w in s.views && s.views[w].session.Some?
  {
    var i := s.views[w].session;
    && w in r.views && i.value in s.past.held
    && (i.value in r.past.held <==> r.views[w].session == i)
    && (i.value in r.past.held ==> s.views[w].asked <= r.views[w].asked)
    && (i.value !in r.past.held ==>
          w !in r.ops.starting && w !in r.ops.waiting && w !in r.ops.stopping && w !in r.lists.active)
  }

  /** A session stays with one wrapper until it is released, and is released
      only after the last handler that knows it ran: no start, wait or stop of it
      is outstanding any more, and its wrapper is off the active list.  Meanwhile
      it is only ever asked more. */
  lemma ReleasedLast(cfg: Config, s: State, event: Event, env: Env, alloc: Option<W>, w: W)
    requires Inv(cfg, s) && Enabled(s, event, env, alloc)
    requires w in s.views && s.views[w].session.Some?
    ensures Owned(s, Step(cfg, s, event, env, alloc), w)
  {
    var r := Step(cfg, s, event, env, alloc);
    forall x ensures Kept(s, r, x, env.session) {
      SessionKept(cfg, s, event, env, alloc, x);
    }
    SessionKept(cfg, s, event, env, alloc, w);
    StepKeeps(cfg, s, event, env, alloc);
    OwnerStays(s, r, w, env.session);
  }

  lemma OwnerStays(s: State, r: State, w: W, i: nat)
    requires Book(s) && Book(r) && Holds(s, w) && w in r.views
    requires (forall x :: Kept(s, r, x, i)) && i !in s.past.held
    ensures Owned(s, r, w)
  {
    var j := s.views[w].session;
    assert j.value in HeldBy(s.views);
    Open(r, w);
    assert Kept(s, r, w, i);
    if r.views[w].session == j {
      assert j.value in HeldBy(r.views);
    } else if j.value in r.past.held {
      var x: W :| x in r.views && r.views[x].session == j;
      assert Kept(s, r, x, i) && Holds(r, x);
    }
  }

  /** What the manager asks a session. */
  lemma AskedInOrder(cfg: Config, s: State, w: W)
    requires Inv(cfg, s) && w in s.views && s.views[w].session.Some?
    ensures InOrder(s.views[w].asked)
    ensures w in s.ops.starting ==> AskStart in s.views[w].asked && w !in s.ops.waiting
    ensures w in s.ops.waiting ==> AskWait in s.views[w].asked
    ensures w in s.ops.stopping ==> AskStop in s.views[w].asked
  {
    Open(s, w);
  }
}

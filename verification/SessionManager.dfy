/** The session manager object: its handlers update the fields, the lists and the
    session wrappers in place, and each one is proved to do exactly what the
    state machine of ManagerSpec does. */
module SessionManager {
  import opened Errors
  import opened ExternRequests
  import opened SessionWrappers
  import opened ManagerSpec
  import opened ManagerLists
  import opened ManagerProofs
  import opened ManagerSteps

  /** The wrapper a step has allocated, if it has. */
  function Made(alloc: Option<SessionWrapper>): set<SessionWrapper> {
    if alloc.Some? then {alloc.value} else {}
  }

  class SessionManager {
    const cfg: Config
    var externState: Extern
    var internState: Intern
    var acceptState: AcceptState
    var pendingOperations: int
    var acceptorOpen: bool
    var acceptError: Error
    var activeSessions: seq<SessionWrapper>
    var recycledSessions: seq<SessionWrapper>
    var stoppingSessionsEnd: Option<SessionWrapper>
    var stats: Stats
    /** The parked handlers, the recorded end of work, and the posted handlers. */
    var mail: Mail

    /** Every wrapper ever allocated, as it is now; the operations the manager is
        called back from; the history. */
    ghost var views: map<SessionWrapper, View>
    ghost var ops: Ops
    ghost var past: Past

    /** The wrappers are as recorded, and so are all that the lists hold. */
    ghost predicate Wf()
      reads this, views.Keys
    {
      && (forall w | w in views :: w.Get() == views[w])
      && (forall i | 0 <= i < |activeSessions| :: activeSessions[i] in views)
      && (forall i | 0 <= i < |recycledSessions| :: recycledSessions[i] in views)
      && (stoppingSessionsEnd.Some? ==> stoppingSessionsEnd.value in views)
    }

    ghost function State(): ManagerSpec.State
      reads this
    {
      ManagerSpec.State(externState, internState, acceptState, pendingOperations, acceptorOpen, acceptError,
                        Lists(activeSessions, recycledSessions, stoppingSessionsEnd), views, ops, stats, mail, past)
    }

    ghost predicate Valid()
      reads this, views.Keys
    {
      Wf() && Inv(cfg, State())
    }

    constructor (config: Config)
      requires config.Valid()
      ensures Wf() && cfg == config && State() == Initial()
    {
      cfg := config;
      externState, internState, acceptState := ExtReady, IntWork, AcceptReady;
      pendingOperations, acceptorOpen, acceptError := 0, false, Success;
      activeSessions, recycledSessions, stoppingSessionsEnd := [], [], None;
      stats, mail := Stats(0, 0, 0, 0, 0, 0, 0, 0), NoMail;
      views, ops, past := map[], Ops(None, {}, {}, {}, false), Past({}, multiset{}, multiset{}, 0, false);
    }

    /** Records whether an assertion of the source holds. */
    ghost method Check(condition: bool)
      modifies `past
      ensures State() == old(State()).Check(condition)
    {
      past := past.(broken := past.broken || !condition);
    }

    // ----- operations on one session

    method StartSessionStart(w: SessionWrapper)
      requires Wf() && w in views
      modifies `pendingOperations, `views, `ops, w
      ensures Wf() && views.Keys == old(views.Keys) && State() == ManagerSpec.StartSessionStart(old(State()), w)
    {
      w.AsyncStart();
      views, ops := views[w := w.Get()], ops.(starting := ops.starting + {w});
      pendingOperations := pendingOperations + 1;
    }

    method StartSessionWait(w: SessionWrapper)
      requires Wf() && w in views
      modifies `pendingOperations, `views, `ops, w
      ensures Wf() && views.Keys == old(views.Keys) && State() == ManagerSpec.StartSessionWait(old(State()), w)
    {
      w.AsyncWait();
      views, ops := views[w := w.Get()], ops.(waiting := ops.waiting + {w});
      pendingOperations := pendingOperations + 1;
    }

    method StartSessionStop(w: SessionWrapper)
      requires Wf() && w in views
      modifies `pendingOperations, `views, `ops, w
      ensures Wf() && views.Keys == old(views.Keys) && State() == ManagerSpec.StartSessionStop(old(State()), w)
    {
      w.AsyncStop();
      views, ops := views[w := w.Get()], ops.(stopping := ops.stopping + {w});
      pendingOperations := pendingOperations + 1;
    }

    method OperationCompleted(w: SessionWrapper, ghost left: Ops)
      requires Wf() && w in views
      modifies `pendingOperations, `views, `ops, w
      ensures Wf() && views.Keys == old(views.Keys) && State() == Completed(old(State()), w, left)
    {
      pendingOperations := pendingOperations - 1;
      w.OperationCompleted();
      views, ops := views[w := w.Get()], left;
    }

    method MarkStopped(w: SessionWrapper)
      requires Wf() && w in views
      modifies `views, w
      ensures Wf() && views.Keys == old(views.Keys) && State() == Mark(old(State()), w, WrapperState.Stopped)
    {
      w.MarkStopped();
      views := views[w := w.Get()];
    }

    method MarkWorking(w: SessionWrapper)
      requires Wf() && w in views
      modifies `views, w
      ensures Wf() && views.Keys == old(views.Keys) && State() == Mark(old(State()), w, WrapperState.Work)
    {
      w.MarkWorking();
      views := views[w := w.Get()];
    }

    method StartAcceptSession(w: SessionWrapper)
      modifies `pendingOperations, `acceptState, `ops
      ensures State() == ManagerSpec.StartAcceptSession(old(State()), w)
    {
      ops := ops.(accepting := Some(w));
      acceptState := AcceptInProgress;
      pendingOperations := pendingOperations + 1;
    }

    // ----- lists

    method AddToActive(w: SessionWrapper)
      requires Wf() && w in views
      modifies `activeSessions, `stats
      ensures Wf() && State() == ManagerSpec.AddToActive(old(State()), w)
    {
      activeSessions := [w] + activeSessions;
      stats := stats.SetActive(|activeSessions|);
    }

    method RemoveFromActive(w: SessionWrapper)
      requires Wf()
      modifies `activeSessions, `stoppingSessionsEnd, `stats
      ensures Wf() && State() == ManagerSpec.RemoveFromActive(old(State()), w)
    {
      NextMember(activeSessions, w);
      EraseWithin(activeSessions, w);
      if stoppingSessionsEnd == Some(w) {
        stoppingSessionsEnd := Next(activeSessions, w);
      }
      activeSessions := Erase(activeSessions, w);
      stats := stats.SetActive(|activeSessions|);
    }

    method Recycle(w: SessionWrapper)
      requires Wf() && w in views
      modifies `recycledSessions, `stats, `views, `past, w
      ensures Wf() && views.Keys == old(views.Keys) && State() == ManagerSpec.Recycle(cfg, old(State()), w)
    {
      if w.pendingOperations != 0 {
        return;
      }
      ReleaseSession(w);
      if |recycledSessions| < cfg.recycledSessions {
        AddToRecycled(w);
      }
    }

    /** Detaches the session, which goes back to its factory. */
    method ReleaseSession(w: SessionWrapper)
      requires Wf() && w in views
      modifies `views, `past, w
      ensures Wf() && views.Keys == old(views.Keys)
      ensures var s, v := old(State()), old(views[w]);
              State() == s.(views := s.views[w := v.(session := None)],
                            past := if v.session.Some? then s.past.Release(v.session.value)
                                    else s.past.(broken := true))
    {
      var session := w.Detach();
      views := views[w := w.Get()];
      Check(session.Some?);
      if session.Some? {
        past := past.Release(session.value);
      }
    }

    method AddToRecycled(w: SessionWrapper)
      requires Wf() && w in views
      modifies `recycledSessions, `stats
      ensures Wf()
      ensures var s := old(State());
              State() == s.(lists := s.lists.(recycled := [w] + s.lists.recycled))
                          .Count(s.stats.(recycled := |s.lists.recycled| + 1))
    {
      recycledSessions := [w] + recycledSessions;
      stats := stats.(recycled := |recycledSessions|);
    }

    /** The next session in a wrapper that was used before. */
    method AttachRecycled(session: nat) returns (w: SessionWrapper)
      requires Wf() && recycledSessions != []
      modifies `recycledSessions, `stats, `views, `past, recycledSessions
      ensures Wf() && w == old(recycledSessions)[0]
      ensures var s := old(State());
              State() == Set(s, w, Attached(session)).(
                lists := s.lists.(recycled := s.lists.recycled[1..]),
                past := s.past.Take(session)).Count(s.stats.(recycled := |s.lists.recycled[1..]|))
    {
      past := past.Take(session);
      w := recycledSessions[0];
      recycledSessions := recycledSessions[1..];
      stats := stats.(recycled := |recycledSessions|);
      w.Attach(session);
      views := views[w := w.Get()];
    }

    /** `memory` tells whether the allocation of a new wrapper succeeds. */
    method CreateSession(env: Env, memory: bool)
      returns (w: Option<SessionWrapper>, error: Error, ghost alloc: Option<SessionWrapper>)
      requires Wf()
      modifies `recycledSessions, `stats, `views, `past, recycledSessions
      ensures alloc.Some? ==> fresh(alloc.value)
      ensures views.Keys == old(views.Keys) + Made(alloc)
      ensures Wf() && (State(), w, error) == ManagerSpec.CreateSession(old(State()), env, alloc)
    {
      w, error, alloc := None, env.create, None;
      if error.Failed() {
        return;
      }
      if recycledSessions != [] {
        var wrapper := AttachRecycled(env.session);
        w := Some(wrapper);
        return;
      }
      past := past.Take(env.session);
      if memory {
        var wrapper := new SessionWrapper(env.session);
        views := views[wrapper := wrapper.Get()];
        w, alloc := Some(wrapper), Some(wrapper);
      } else {
        past := past.Release(env.session);
        error := NotEnoughMemory;
      }
    }

    // ----- stop

    method CompleteExternStop(error: Error)
      modifies `mail
      ensures State() == old(State()).(mail := ExternRequests.CompleteExternStop(old(State()).mail, error))
    {
      if mail.stopHandler.Some? {
        mail := PostMail(mail.(stopHandler := None), mail.stopHandler.value, error);
      }
    }

    method CompleteExternWait(error: Error)
      modifies `mail
      ensures State() == old(State()).(mail := ExternRequests.CompleteExternWait(old(State()).mail, error))
    {
      if !mail.waitError.Failed() {
        mail := mail.(waitError := error);
      }
      if mail.waitHandler.Some? {
        mail := PostMail(mail.(waitHandler := None), mail.waitHandler.value, mail.waitError);
      }
    }

    method ContinueStop()
      modifies `internState, `externState, `mail, `past
      ensures State() == ManagerSpec.ContinueStop(old(State()))
    {
      Check(internState.IntStop?);
      if pendingOperations == 0 {
        Check(acceptState.AcceptStopped? && activeSessions == []);
        internState := IntStopped;
        if externState.ExtStop? {
          externState := ExtStopped;
          CompleteExternStop(Success);
        }
      }
    }

    /** Stops at most `maxCount` sessions of the list from `first` on, and
        returns the session the next batch begins with. */
    method StartActiveSessionStop(first: Option<SessionWrapper>, maxCount: nat) returns (begin: Option<SessionWrapper>)
      requires Wf() && (first.Some? ==> first.value in views)
      modifies `pendingOperations, `views, `ops, views.Keys
      ensures Wf() && views.Keys == old(views.Keys) && (begin.Some? ==> begin.value in views)
      ensures var s := State();
              s.(lists := s.lists.(stoppingEnd := begin)) == StopBatch(old(State()), first, maxCount)
    {
      hide StopBatch, StopNext, Next;
      begin := first;
      var left := maxCount;
      while left != 0 && begin.Some?
        invariant Wf() && views.Keys == old(views.Keys) && (begin.Some? ==> begin.value in views)
        invariant StopBatch(State(), begin, left) == StopBatch(old(State()), first, maxCount)
      {
        StopBatchUnfolds(State(), begin, left);
        StopUnlessStopping(begin.value);
        left := left - 1;
        NextMember(activeSessions, begin.value);
        begin := Next(activeSessions, begin.value);
      }
      StopBatchEnds(State(), begin, left);
    }

    method StopUnlessStopping(w: SessionWrapper)
      requires Wf() && w in views
      modifies `pendingOperations, `views, `ops, w
      ensures Wf() && views.Keys == old(views.Keys) && State() == StopNext(old(State()), w)
    {
      if !w.state.Stop? {
        StartSessionStop(w);
      }
    }

    method ScheduleActiveSessionStop()
      modifies `pendingOperations, `ops
      ensures State() == old(State()).(pending := old(State()).pending + 1, ops := old(State()).ops.(scheduled := true))
    {
      ops := ops.(scheduled := true);
      pendingOperations := pendingOperations + 1;
    }

    /** One batch of the stop and what follows it. */
    method StopNextBatch(first: Option<SessionWrapper>)
      requires Wf() && (first.Some? ==> first.value in views)
      modifies `pendingOperations, `views, `ops, `stoppingSessionsEnd, `internState, `externState, `mail, `past, views.Keys
      ensures Wf() && views.Keys == old(views.Keys)
      ensures State() == ManagerSpec.ContinueStop(ScheduleIfMore(StopBatch(old(State()), first, cfg.maxStopping)))
    {
      hide StopBatch, ManagerSpec.ContinueStop;
      stoppingSessionsEnd := StartActiveSessionStop(first, cfg.maxStopping);
      if stoppingSessionsEnd.Some? {
        ScheduleActiveSessionStop();
      }
      ContinueStop();
    }

    method StartStop(error: Error)
      requires Wf()
      modifies `pendingOperations, `views, `ops, `stoppingSessionsEnd, `internState, `externState, `mail, `past,
               `acceptorOpen, `acceptState, views.Keys
      ensures Wf() && views.Keys == old(views.Keys)
      ensures State() == ManagerSpec.StartStop(cfg, old(State()), error)
    {
      hide StopBatch, ManagerSpec.ContinueStop, ScheduleIfMore;
      BeginStop(error);
      StopNextBatch(Front(activeSessions));
    }

    /** Closes the acceptor and answers a parked wait. */
    method BeginStop(error: Error)
      modifies `internState, `acceptorOpen, `acceptState, `mail
      ensures State() == StopBegun(old(State()), error)
    {
      internState := IntStop;
      acceptorOpen := false;
      if acceptState.AcceptReady? {
        acceptState := AcceptStopped;
      }
      if externState.ExtWork? {
        CompleteExternWait(error);
      }
    }

    method HandleScheduledActiveSessionStop()
      requires Wf()
      modifies `pendingOperations, `views, `ops, `stoppingSessionsEnd, `internState, `externState, `mail, `past, views.Keys
      ensures Wf() && views.Keys == old(views.Keys)
      ensures State() == HandleStopScheduled(cfg, old(State()))
    {
      hide StopBatch, ManagerSpec.ContinueStop, ScheduleIfMore;
      pendingOperations := pendingOperations - 1;
      ops := ops.(scheduled := false);
      StopNextBatch(stoppingSessionsEnd);
    }

    // ----- work

    /** `open` and `create` of the environment answer the acceptor and the
        factory; `memory` tells whether a new wrapper can be allocated. */
    method ContinueWork(env: Env, memory: bool) returns (ghost alloc: Option<SessionWrapper>)
      requires Wf()
      modifies this, views.Keys
      ensures Wf() && (alloc.Some? ==> fresh(alloc.value))
      ensures views.Keys == old(views.Keys) + Made(alloc)
      ensures State() == ManagerSpec.ContinueWork(cfg, old(State()), env, alloc)
    {
      hide NextAccept, ManagerSpec.StartStop;
      alloc := None;
      Check(internState.IntWork?);
      if activeSessions == [] && acceptState.AcceptStopped? {
        StartStop(acceptError);
        return;
      }
      if !acceptState.AcceptReady? {
        return;
      }
      if |activeSessions| >= cfg.maxSessions {
        acceptorOpen := false;
        return;
      }
      if !acceptorOpen {
        acceptError := env.open;
        if acceptError.Failed() {
          acceptState := AcceptStopped;
          if activeSessions == [] {
            StartStop(acceptError);
          }
          return;
        }
        acceptorOpen := true;
      }
      alloc := AcceptNext(env, memory);
    }

    /** Waits for the next connection, with a new session. */
    method AcceptNext(env: Env, memory: bool) returns (ghost alloc: Option<SessionWrapper>)
      requires Wf()
      modifies this, views.Keys
      ensures Wf() && (alloc.Some? ==> fresh(alloc.value))
      ensures views.Keys == old(views.Keys) + Made(alloc)
      ensures State() == NextAccept(cfg, old(State()), env, alloc)
    {
      hide ManagerSpec.CreateSession, ManagerSpec.StartStop, ManagerSpec.StartAcceptSession;
      var w, error;
      w, error, alloc := CreateSession(env, memory);
      acceptError := error;
      if acceptError.Failed() {
        if activeSessions != [] {
          return;
        }
        acceptState := AcceptStopped;
        StartStop(acceptError);
        return;
      }
      if w.Some? {
        StartAcceptSession(w.value);
      }
    }

    method Continue(env: Env, memory: bool) returns (ghost alloc: Option<SessionWrapper>)
      requires Wf()
      modifies this, views.Keys
      ensures Wf() && (alloc.Some? ==> fresh(alloc.value))
      ensures views.Keys == old(views.Keys) + Made(alloc)
      ensures State() == ManagerSpec.Continue(cfg, old(State()), env, alloc)
    {
      hide ManagerSpec.ContinueWork, ManagerSpec.ContinueStop;
      alloc := None;
      if internState.IntWork? {
        alloc := ContinueWork(env, memory);
      } else {
        ContinueStop();
      }
    }

    // ----- completions of the acceptor

    method HandleAccept(w: SessionWrapper, error: Error, env: Env, memory: bool) returns (ghost alloc: Option<SessionWrapper>)
      requires Wf() && w in views
      modifies this, views.Keys
      ensures Wf() && (alloc.Some? ==> fresh(alloc.value))
      ensures views.Keys == old(views.Keys) + Made(alloc)
      ensures State() == HandleCompletion(cfg, old(State()), AcceptDone(w, error), env, alloc)
    {
      hide ManagerSpec.Continue, AcceptedAtWork, AcceptedAtStop;
      alloc := None;
      Check(acceptState.AcceptInProgress?);
      match internState {
        case IntWork => HandleAcceptAtWork(w, error);
        case IntStop => HandleAcceptAtStop(w, error);
        case IntStopped =>
          Check(false);
          return;
      }
      alloc := Continue(env, memory);
    }

    method AcceptCompleted(accept: AcceptState, error: Error)
      modifies `pendingOperations, `acceptState, `ops, `stats
      ensures State() == ManagerSpec.AcceptCompleted(old(State()), accept, error)
    {
      pendingOperations := pendingOperations - 1;
      ops := ops.(accepting := None);
      acceptState := accept;
      stats := stats.Accepted(error);
    }

    method HandleAcceptAtWork(w: SessionWrapper, error: Error)
      requires Wf() && w in views
      modifies `pendingOperations, `acceptState, `ops, `stats, `acceptError, `activeSessions, `recycledSessions,
               `views, `past, w
      ensures Wf() && views.Keys == old(views.Keys) && State() == AcceptedAtWork(cfg, old(State()), w, error)
    {
      hide ManagerSpec.Recycle, ManagerSpec.StartSessionStart, ManagerSpec.AddToActive, ManagerSpec.AcceptCompleted,
           AcceptGivenUp;
      AcceptCompleted(AcceptReady, error);
      if error.Failed() {
        GiveUpAccept(error);
        Recycle(w);
      } else if |activeSessions| >= cfg.maxSessions {
        stats := stats.SessionStopped(OperationAborted);
        Recycle(w);
      } else {
        Serve(w);
      }
    }

    method GiveUpAccept(error: Error)
      modifies `acceptError, `acceptState
      ensures State() == AcceptGivenUp(old(State()), error)
    {
      if !error.NoDescriptors? {
        acceptError, acceptState := error, AcceptStopped;
      }
    }

    /** A new active session. */
    method Serve(w: SessionWrapper)
      requires Wf() && w in views
      modifies `pendingOperations, `ops, `stats, `activeSessions, `views, w
      ensures Wf() && views.Keys == old(views.Keys)
      ensures State() == ManagerSpec.StartSessionStart(ManagerSpec.AddToActive(old(State()), w), w)
    {
      hide ManagerSpec.StartSessionStart, ManagerSpec.AddToActive;
      AddToActive(w);
      StartSessionStart(w);
    }

    method HandleAcceptAtStop(w: SessionWrapper, error: Error)
      requires Wf() && w in views
      modifies `pendingOperations, `acceptState, `ops, `stats, `recycledSessions, `views, `past, w
      ensures Wf() && views.Keys == old(views.Keys) && State() == AcceptedAtStop(cfg, old(State()), w, error)
    {
      hide ManagerSpec.Recycle;
      AcceptCompleted(AcceptStopped, error);
      if !error.Failed() {
        stats := stats.SessionStopped(OperationAborted);
      }
      Recycle(w);
    }

    // ----- completions of the sessions

    method HandleSessionStart(w: SessionWrapper, error: Error, env: Env, memory: bool)
      returns (ghost alloc: Option<SessionWrapper>)
      requires Wf() && w in views
      modifies this, views.Keys
      ensures Wf() && (alloc.Some? ==> fresh(alloc.value))
      ensures views.Keys == old(views.Keys) + Made(alloc)
      ensures State() == HandleCompletion(cfg, old(State()), SessionStarted(w, error), env, alloc)
    {
      hide ManagerSpec.Continue, SessionStartDone;
      alloc := None;
      if internState.IntStopped? {
        Check(false);
        return;
      }
      StartDone(w, error);
      alloc := Continue(env, memory);
    }

    /** The session is over: it leaves the list and is recycled. */
    method Finish(w: SessionWrapper)
      requires Wf() && w in views
      modifies `activeSessions, `stoppingSessionsEnd, `recycledSessions, `stats, `views, `past, w
      ensures Wf() && views.Keys == old(views.Keys)
      ensures State() == ManagerSpec.Recycle(cfg,
                ManagerSpec.RemoveFromActive(Mark(old(State()), w, WrapperState.Stopped), w), w)
    {
      hide ManagerSpec.Recycle, ManagerSpec.RemoveFromActive;
      MarkStopped(w);
      RemoveFromActive(w);
      Recycle(w);
    }

    method StartDone(w: SessionWrapper, error: Error)
      requires Wf() && w in views
      modifies `pendingOperations, `ops, `activeSessions, `stoppingSessionsEnd, `recycledSessions, `stats,
               `views, `past, w
      ensures Wf() && views.Keys == old(views.Keys) && State() == SessionStartDone(cfg, old(State()), w, error)
    {
      hide StartAnswered;
      OperationCompleted(w, ops.(starting := ops.starting - {w}));
      AnswerStart(w, error);
    }

    method AnswerStart(w: SessionWrapper, error: Error)
      requires Wf() && w in views
      modifies `pendingOperations, `ops, `activeSessions, `stoppingSessionsEnd, `recycledSessions, `stats,
               `views, `past, w
      ensures Wf() && views.Keys == old(views.Keys) && State() == StartAnswered(cfg, old(State()), w, error)
    {
      hide ManagerSpec.Recycle, ManagerSpec.RemoveFromActive, ManagerSpec.StartSessionStop, ManagerSpec.StartSessionWait;
      if !w.state.Start? {
        stats := stats.SessionStopped(OperationAborted);
        Recycle(w);
      } else if error.Failed() {
        stats := stats.SessionStopped(error);
        Finish(w);
      } else {
        StartSucceeded(w);
      }
    }

    method StartSucceeded(w: SessionWrapper)
      requires Wf() && w in views
      modifies `pendingOperations, `ops, `views, `past, w
      ensures Wf() && views.Keys == old(views.Keys)
      ensures var s := old(State());
              State() == (if s.intern.IntWork?
                          then ManagerSpec.StartSessionWait(Mark(s, w, WrapperState.Work), w)
                          else ManagerSpec.StartSessionStop(s.(past := s.past.Uncounted()), w))
    {
      hide ManagerSpec.StartSessionStop, ManagerSpec.StartSessionWait, Mark;
      if internState.IntWork? {
        MarkWorking(w);
        StartSessionWait(w);
      } else {
        past := past.Uncounted();
        StartSessionStop(w);
      }
    }

    method HandleSessionWait(w: SessionWrapper, error: Error, env: Env, memory: bool)
      returns (ghost alloc: Option<SessionWrapper>)
      requires Wf() && w in views
      modifies this, views.Keys
      ensures Wf() && (alloc.Some? ==> fresh(alloc.value))
      ensures views.Keys == old(views.Keys) + Made(alloc)
      ensures State() == HandleCompletion(cfg, old(State()), SessionWaited(w, error), env, alloc)
    {
      hide ManagerSpec.Continue, SessionWaitDone;
      alloc := None;
      if internState.IntStopped? {
        Check(false);
        return;
      }
      WaitDone(w, error);
      alloc := Continue(env, memory);
    }

    method WaitDone(w: SessionWrapper, error: Error)
      requires Wf() && w in views
      modifies `pendingOperations, `ops, `recycledSessions, `stats, `views, `past, w
      ensures Wf() && views.Keys == old(views.Keys) && State() == SessionWaitDone(cfg, old(State()), w, error)
    {
      hide WaitAnswered;
      OperationCompleted(w, ops.(waiting := ops.waiting - {w}));
      AnswerWait(w, error);
    }

    method AnswerWait(w: SessionWrapper, error: Error)
      requires Wf() && w in views
      modifies `pendingOperations, `ops, `recycledSessions, `stats, `views, `past, w
      ensures Wf() && views.Keys == old(views.Keys) && State() == WaitAnswered(cfg, old(State()), w, error)
    {
      hide ManagerSpec.Recycle, ManagerSpec.StartSessionStop;
      if !w.state.Work? {
        stats := stats.SessionStopped(OperationAborted);
        Recycle(w);
      } else {
        stats := stats.SessionStopped(error);
        StartSessionStop(w);
      }
    }

    method HandleSessionStop(w: SessionWrapper, error: Error, env: Env, memory: bool)
      returns (ghost alloc: Option<SessionWrapper>)
      requires Wf() && w in views
      modifies this, views.Keys
      ensures Wf() && (alloc.Some? ==> fresh(alloc.value))
      ensures views.Keys == old(views.Keys) + Made(alloc)
      ensures State() == HandleCompletion(cfg, old(State()), SessionStopped(w, error), env, alloc)
    {
      hide ManagerSpec.Continue, SessionStopDone;
      alloc := None;
      if internState.IntStopped? {
        Check(false);
        return;
      }
      StopDone(w, error);
      alloc := Continue(env, memory);
    }

    method StopDone(w: SessionWrapper, error: Error)
      requires Wf() && w in views
      modifies `pendingOperations, `ops, `activeSessions, `stoppingSessionsEnd, `recycledSessions, `stats,
               `views, `past, w
      ensures Wf() && views.Keys == old(views.Keys) && State() == SessionStopDone(cfg, old(State()), w, error)
    {
      hide ManagerSpec.Recycle, ManagerSpec.RemoveFromActive;
      OperationCompleted(w, ops.(stopping := ops.stopping - {w}));
      if !w.state.Stop? {
        Recycle(w);
      } else {
        Check(!error.Failed());
        Finish(w);
      }
    }

    // ----- external requests

    method AsyncStart(id: nat, env: Env, memory: bool) returns (ghost alloc: Option<SessionWrapper>)
      requires Wf()
      modifies this, views.Keys
      ensures Wf() && (alloc.Some? ==> fresh(alloc.value))
      ensures views.Keys == old(views.Keys) + Made(alloc)
      ensures var s := old(State());
              State() == DoStart(cfg, s.(mail := IssueMail(s.mail, id)), id, env, alloc)
    {
      hide ManagerSpec.ContinueWork;
      mail := IssueMail(mail, id);
      var error;
      error, alloc := DoStartExternStart(id, env, memory);
      mail := PostMail(mail, id, error);
    }

    method DoStartExternStart(ghost id: nat, env: Env, memory: bool) returns (error: Error, ghost alloc: Option<SessionWrapper>)
      requires Wf()
      modifies this, views.Keys
      ensures Wf() && (alloc.Some? ==> fresh(alloc.value))
      ensures views.Keys == old(views.Keys) + Made(alloc)
      ensures var s := State();
              s.(mail := PostMail(s.mail, id, error)) == DoStart(cfg, old(State()), id, env, alloc)
    {
      hide ManagerSpec.ContinueWork;
      if !externState.ExtReady? {
        return InvalidState, None;
      }
      externState := ExtWork;
      alloc := ContinueWork(env, memory);
      error := Success;
      if internState.IntStopped? {
        externState := ExtStopped;
        error := mail.waitError;
      }
    }

    method AsyncStop(id: nat)
      requires Wf()
      modifies this, views.Keys
      ensures Wf() && views.Keys == old(views.Keys)
      ensures var s := old(State());
              State() == DoStop(cfg, s.(mail := IssueMail(s.mail, id)), id)
    {
      hide ManagerSpec.StartStop;
      mail := IssueMail(mail, id);
      var result := DoStartExternStop(id);
      if result.Some? {
        mail := PostMail(mail, id, result.value);
      } else {
        mail := mail.(stopHandler := Some(id));
      }
    }

    method DoStartExternStop(ghost id: nat) returns (result: Option<Error>)
      requires Wf()
      modifies this, views.Keys
      ensures Wf() && views.Keys == old(views.Keys)
      ensures var s := State();
              (if result.Some? then s.(mail := PostMail(s.mail, id, result.value))
               else s.(mail := s.mail.(stopHandler := Some(id)))) == DoStop(cfg, old(State()), id)
    {
      hide ManagerSpec.StartStop;
      if externState.ExtStopped? || externState.ExtStop? {
        return Some(InvalidState);
      }
      externState := ExtStop;
      CompleteExternWait(OperationAborted);
      if internState.IntWork? {
        StartStop(OperationAborted);
      }
      if internState.IntStopped? {
        externState := ExtStopped;
        return Some(Success);
      }
      return None;
    }

    method AsyncWait(id: nat)
      modifies `mail
      ensures var s := old(State());
              State() == DoWait(s.(mail := IssueMail(s.mail, id)), id)
    {
      mail := IssueMail(mail, id);
      if !externState.ExtWork? || mail.waitHandler.Some? {
        mail := PostMail(mail, id, InvalidState);
      } else if !internState.IntWork? {
        mail := PostMail(mail, id, mail.waitError);
      } else {
        mail := mail.(waitHandler := Some(id));
      }
    }

    method ResetManager(freeRecycled: bool)
      requires Wf()
      modifies this
      ensures Wf() && views.Keys == old(views.Keys) && State() == DoReset(old(State()), freeRecycled)
    {
      ResetStates();
      activeSessions := [];
      if freeRecycled {
        recycledSessions := [];
      }
      stats := Stats(0, 0, 0, 0, 0, 0, 0, 0);
      mail := mail.(waitError := Success);
      past := past.(uncounted := 0);
    }

    method ResetStates()
      modifies `externState, `internState, `acceptState, `pendingOperations, `acceptorOpen
      ensures State() == old(State()).(extern := ExtReady, intern := IntWork, accept := AcceptReady,
                                       pending := 0, acceptorOpen := false)
    {
      externState, internState, acceptState := ExtReady, IntWork, AcceptReady;
      pendingOperations, acceptorOpen := 0, false;
    }

    // ----- one turn of the strand

    /** Whatever comes next, the object does what the state machine does, and
        stays valid. */
    method Handle(event: Event, env: Env, memory: bool) returns (ghost alloc: Option<SessionWrapper>)
      requires Valid() && Enabled(State(), event, env, None)
      modifies this, views.Keys
      ensures alloc.Some? ==> fresh(alloc.value)
      ensures views.Keys == old(views.Keys) + Made(alloc)
      ensures Enabled(old(State()), event, env, alloc) && State() == Step(cfg, old(State()), event, env, alloc)
      ensures Valid()
    {
      hide DoStart, DoStop, DoWait, DoReset, HandleStopScheduled, HandleCompletion, Inv;
      ghost var s := State();
      if IsCompletion(event) {
        SubjectKnown(cfg, s, event, env, None);
      }
      alloc := None;
      match event {
        case Start(id) => alloc := AsyncStart(id, env, memory);
        case Stop(id) => AsyncStop(id);
        case Wait(id) => AsyncWait(id);
        case AcceptDone(w, error) => alloc := HandleAccept(w, error, env, memory);
        case SessionStarted(w, error) => alloc := HandleSessionStart(w, error, env, memory);
        case SessionWaited(w, error) => alloc := HandleSessionWait(w, error, env, memory);
        case SessionStopped(w, error) => alloc := HandleSessionStop(w, error, env, memory);
        case StopScheduled => HandleScheduledActiveSessionStop();
        case Reset(freeRecycled) => ResetManager(freeRecycled);
      }
      StepKeeps(cfg, s, event, env, alloc);
    }
  }

  lemma NextMember(q: seq<W>, w: W)
    ensures Next(q, w).Some? ==> Next(q, w).value in q
  {
    FromWithin(q, Some(w));
  }
}

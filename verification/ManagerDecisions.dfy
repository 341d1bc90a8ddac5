/** What the session manager decides: when it accepts on, when its work ends and
    with which cause, and whether its acceptor is open: stated about whole steps. */
module ManagerDecisions {
  import opened Errors
  import opened ExternRequests
  import opened SessionWrappers
  import opened ManagerSpec
  import opened ManagerBooks
  import opened ManagerProofs
  import opened ManagerCompletions
  import opened ManagerSteps
  import opened ManagerDrain
  import opened ManagerOwnership
  import opened ManagerMail

  // ----- the acceptor after a completion

  /** After an accept that fails for another reason than the lack of descriptors
      nothing is accepted any more. */
  predicate GivesUp(event: Event) { event.AcceptDone? && event.error.Failed() && event.error != NoDescriptors }

  /** Between a completion and the point where the manager continues, only the
      completion of an accept touches the acceptor. */
  predicate AcceptorAfter(s: State, c: State, event: Event) {
    && c.acceptorOpen == s.acceptorOpen && c.extern == s.extern && c.intern == s.intern && c.mail == s.mail
    && c.accept == (if !event.AcceptDone? then s.accept
                    else if s.intern.IntWork? && !GivesUp(event) then AcceptReady else AcceptStopped)
    && c.acceptError == (if s.intern.IntWork? && GivesUp(event) then event.error else s.acceptError)
  }

  predicate SameAcceptor(s: State, r: State) {
    && r.acceptorOpen == s.acceptorOpen && r.extern == s.extern && r.intern == s.intern && r.mail == s.mail
    && r.accept == s.accept && r.acceptError == s.acceptError
  }

  lemma RecycleAcceptor(cfg: Config, s: State, w: W)
    ensures SameAcceptor(s, Recycle(cfg, s, w))
  {
  }

  lemma StartAcceptor(cfg: Config, s: State, w: W, error: Error)
    ensures SameAcceptor(s, SessionStartDone(cfg, s, w, error))
  {
    hide Recycle;
    var r := StartCompleted(s, w);
    RecycleAcceptor(cfg, r.Count(r.stats.SessionStopped(OperationAborted)), w);
    RecycleAcceptor(cfg, RemoveFromActive(Mark(r.Count(r.stats.SessionStopped(error)), w, WrapperState.Stopped), w), w);
  }

  lemma WaitAcceptor(cfg: Config, s: State, w: W, error: Error)
    ensures SameAcceptor(s, SessionWaitDone(cfg, s, w, error))
  {
    hide Recycle;
    var r := WaitCompleted(s, w);
    RecycleAcceptor(cfg, r.Count(r.stats.SessionStopped(OperationAborted)), w);
  }

  lemma StopAcceptor(cfg: Config, s: State, w: W, error: Error)
    ensures SameAcceptor(s, SessionStopDone(cfg, s, w, error))
  {
    hide Recycle;
    var r := StopCompleted(s, w);
    RecycleAcceptor(cfg, r, w);
    RecycleAcceptor(cfg, RemoveFromActive(Mark(r.Check(!error.Failed()), w, WrapperState.Stopped), w), w);
  }

  lemma AcceptAcceptor(cfg: Config, s: State, w: W, error: Error)
    requires s.intern.IntStop? || (s.intern.IntWork? && |s.lists.active| < cfg.maxSessions)
    ensures AcceptorAfter(s, if s.intern.IntWork? then AcceptedAtWork(cfg, s, w, error)
                             else AcceptedAtStop(cfg, s, w, error), AcceptDone(w, error))
  {
    hide Recycle;
    var r, q := AcceptCompleted(s, AcceptReady, error), AcceptCompleted(s, AcceptStopped, error);
    RecycleAcceptor(cfg, AcceptGivenUp(r, error), w);
    RecycleAcceptor(cfg, if error.Failed() then q else q.Count(q.stats.SessionStopped(OperationAborted)), w);
  }

  lemma CompletionAcceptor(cfg: Config, s: State, event: Event, env: Env, alloc: Option<W>)
    requires Inv(cfg, s) && Enabled(s, event, env, alloc) && IsCompletion(event)
    ensures AcceptorAfter(s, Complete(cfg, s, event), event) && !s.intern.IntStopped?
  {
    hide SessionStartDone, SessionWaitDone, SessionStopDone, AcceptedAtWork, AcceptedAtStop;
    CompletionPasses(cfg, s, event, env, alloc);
    match event
    case AcceptDone(w, error) =>
      AcceptFindsRoom(cfg, s);
      AcceptAcceptor(cfg, s.Check(s.accept.AcceptInProgress?), w, error);
    case SessionStarted(w, error) => StartAcceptor(cfg, s, w, error);
    case SessionWaited(w, error) => WaitAcceptor(cfg, s, w, error);
    case SessionStopped(w, error) => StopAcceptor(cfg, s, w, error);
  }

  // ----- what comes next

  /** A session can be had. */
  predicate Supplied(c: State, env: Env, alloc: Option<W>) {
    !env.create.Failed() && (c.lists.recycled != [] || alloc.Some?)
  }

  function SupplyError(env: Env): Error { if env.create.Failed() then env.create else NotEnoughMemory }

  predicate OpenFails(c: State, env: Env) { !c.acceptorOpen && env.open.Failed() }

  /** The manager accepts again: its acceptor is free and can be opened, there is
      room for one more session, and one can be had. */
  predicate AcceptsNext(cfg: Config, c: State, env: Env, alloc: Option<W>) {
    && c.accept.AcceptReady? && |c.lists.active| < cfg.maxSessions
    && !OpenFails(c, env) && Supplied(c, env, alloc)
  }

  /** The error that ends the work of a manager that serves no session: nothing is
      accepted any more, or nothing can be. */
  function EndOfWork(c: State, env: Env, alloc: Option<W>): Option<Error> {
    if c.lists.active != [] || c.accept.AcceptInProgress? then None
    else if c.accept.AcceptStopped? then Some(c.acceptError)
    else if OpenFails(c, env) then Some(env.open)
    else if !Supplied(c, env, alloc) then Some(SupplyError(env))
    else None
  }

  /** The decision of a manager at work. */
  predicate Decides(cfg: Config, c: State, env: Env, alloc: Option<W>, r: State) {
    && (r.intern.IntWork? <==> EndOfWork(c, env, alloc).None?)
    && r.extern == c.extern
    && (if r.intern.IntWork? then r.mail == c.mail
        else r.mail.waitError == EndOfWork(c, env, alloc).value && !r.acceptorOpen)
    && (r.intern.IntWork? ==>
          && (r.accept.AcceptInProgress? <==> c.accept.AcceptInProgress? || AcceptsNext(cfg, c, env, alloc))
          && (r.accept.AcceptStopped? <==>
                c.accept.AcceptStopped? || (c.accept.AcceptReady? && |c.lists.active| < cfg.maxSessions && OpenFails(c, env))))
    && (c.accept.AcceptStopped? ==> r.accept.AcceptStopped? && r.acceptError == c.acceptError)
    && (r.intern.IntWork? && r.accept.AcceptStopped? && !c.accept.AcceptStopped? ==> r.acceptError == env.open)
  }

  /** A stop from work records its cause and closes the acceptor. */
  lemma StartStopRecords(cfg: Config, s: State, error: Error)
    requires s.extern.ExtWork? && !s.mail.waitError.Failed() && s.mail.stopHandler.None? && error.Failed()
    ensures var r := StartStop(cfg, s, error);
            && !r.intern.IntWork? && r.mail.waitError == error && !r.acceptorOpen && r.acceptError == s.acceptError
            && r.extern == s.extern
            && (s.accept.AcceptInProgress? <==> r.accept.AcceptInProgress?) && !r.accept.AcceptReady?
  {
    var b := StopBegun(s, error);
    BatchMail(b, Front(b.lists.active), cfg.maxStopping);
    StopBatchFrame(b, Front(b.lists.active), cfg.maxStopping);
  }

  lemma NextAcceptDecides(cfg: Config, c: State, env: Env, alloc: Option<W>)
    requires c.extern.ExtWork? && c.intern.IntWork? && !c.mail.waitError.Failed() && c.mail.stopHandler.None?
    requires c.accept.AcceptReady? && |c.lists.active| < cfg.maxSessions && !OpenFails(c, env)
    ensures Decides(cfg, c, env, alloc, NextAccept(cfg, c, env, alloc))
  {
    hide StartStop;
    var (q, w, error) := CreateSession(c, env, alloc);
    if error.Failed() {
      StartStopRecords(cfg, q.(acceptError := error).Accepting(AcceptStopped), error);
    }
  }

  lemma ContinueDecides(cfg: Config, c: State, env: Env, alloc: Option<W>)
    requires cfg.Valid() && c.extern.ExtWork? && c.intern.IntWork? && !c.mail.waitError.Failed() && c.mail.stopHandler.None?
    requires c.accept.AcceptStopped? ==> c.acceptError.Failed()
    ensures Decides(cfg, c, env, alloc, ContinueWork(cfg, c, env, alloc))
  {
    hide StartStop, NextAccept;
    if c.lists.active == [] && c.accept.AcceptStopped? {
      StartStopRecords(cfg, c, c.acceptError);
    } else if c.accept.AcceptReady? && |c.lists.active| < cfg.maxSessions {
      if OpenFails(c, env) {
        if c.lists.active == [] {
          StartStopRecords(cfg, c.(acceptError := env.open, accept := AcceptStopped), env.open);
        }
      } else {
        NextAcceptDecides(cfg, if c.acceptorOpen then c else c.(acceptorOpen := true, acceptError := Success), env, alloc);
      }
    }
  }

  lemma GoingDecides(cfg: Config, c: State, env: Env, alloc: Option<W>)
    requires Going(cfg, c) && c.intern.IntWork?
    ensures Decides(cfg, c, env, alloc, ContinueWork(cfg, c, env, alloc))
  {
    hide ContinueWork, Decides;
    ContinueDecides(cfg, c, env, alloc);
  }

  /** What a step of a working manager comes to: its completion, and the decision
      what to do next. */
  lemma StepDecides(cfg: Config, s: State, event: Event, env: Env, alloc: Option<W>)
    requires Inv(cfg, s) && Enabled(s, event, env, alloc) && s.intern.IntWork? && IsCompletion(event)
    ensures var c := Midway(cfg, s, event);
            AcceptorAfter(s, c, event) && Decides(cfg, c, env, alloc, Step(cfg, s, event, env, alloc))
  {
    hide Complete, ContinueWork, Decides;
    CompletionAcceptor(cfg, s, event, env, alloc);
    CompletionPasses(cfg, s, event, env, alloc);
    GoingDecides(cfg, Complete(cfg, s, event), env, alloc);
  }

  /** A start is answered with success, or with the error for which nothing can be
      accepted, which ends the work at once; out of turn it is refused. */
  lemma StartTold(cfg: Config, s: State, id: nat, env: Env, alloc: Option<W>)
    requires Inv(cfg, s) && Enabled(s, Event.Start(id), env, alloc)
    ensures var r := Step(cfg, s, Event.Start(id), env, alloc);
            if !s.extern.ExtReady? then r == s.(mail := PostMail(IssueMail(s.mail, id), id, InvalidState))
            else
              var end := EndOfWork(s, env, alloc);
              && r.mail.posted == s.mail.posted + [Completion(id, if end.Some? then end.value else Success)]
              && (if end.Some? then r.intern.IntStopped? && r.extern.ExtStopped? && r.mail.waitError == end.value
                  else r.intern.IntWork? && r.extern.ExtWork? && r.accept.AcceptInProgress? && r.acceptorOpen)
  {
    hide ContinueWork;
    if s.extern.ExtReady? {
      var c := s.(extern := ExtWork, mail := IssueMail(s.mail, id));
      IssueKeeps(cfg, s, id);
      ContinueWorkKeeps(cfg, c, env, alloc);
      ContinueDecides(cfg, c, env, alloc);
      ContinueWorkForward(cfg, c, env, alloc);
      StartedOpen(cfg, c, env, alloc);
    }
  }

  /** Beginning to work: the acceptor is opened and waits, or all is over. */
  lemma StartedOpen(cfg: Config, c: State, env: Env, alloc: Option<W>)
    requires c.intern.IntWork? && c.extern.ExtWork? && c.lists.active == [] && c.pending == 0 && c.accept.AcceptReady?
    requires cfg.Valid() && c.lists.stoppingEnd.None? && c.mail.stopHandler.None? && !c.mail.waitError.Failed()
    ensures var r := ContinueWork(cfg, c, env, alloc);
            if r.intern.IntWork? then r.acceptorOpen else r.intern.IntStopped? && r.extern.ExtWork?
  {
  }

  /** A stop is answered with success, at once or when it has ended; a parked wait
      is told that the work was aborted; a second stop is refused. */
  lemma StopTold(cfg: Config, s: State, id: nat, env: Env, alloc: Option<W>)
    requires Inv(cfg, s) && Enabled(s, Event.Stop(id), env, alloc)
    ensures var r := Step(cfg, s, Event.Stop(id), env, alloc);
            if s.extern.ExtStop? || s.extern.ExtStopped? then
              r == s.(mail := PostMail(IssueMail(s.mail, id), id, InvalidState))
            else
              && !r.intern.IntWork?
              && r.mail.posted == s.mail.posted
                   + (if s.mail.waitHandler.Some? then [Completion(s.mail.waitHandler.value, OperationAborted)] else [])
                   + (if r.intern.IntStopped? then [Completion(id, Success)] else [])
              && (if r.intern.IntStopped? then r.extern.ExtStopped? else r.mail.stopHandler == Some(id))
              && (s.intern.IntWork? ==> r.mail.waitError == OperationAborted && !r.acceptorOpen)
  {
    hide StartStop;
    if !s.extern.ExtStop? && !s.extern.ExtStopped? && s.intern.IntWork? {
      var i := s.(mail := IssueMail(s.mail, id));
      StopFromWork(cfg, i.(extern := ExtStop, mail := CompleteExternWait(i.mail, OperationAborted)));
    }
  }

  /** The stop itself posts nothing. */
  lemma StopFromWork(cfg: Config, s: State)
    requires s.extern.ExtStop? && s.mail.stopHandler.None?
    ensures var r := StartStop(cfg, s, OperationAborted);
            && !r.intern.IntWork? && r.mail == s.mail && !r.acceptorOpen
            && (r.extern.ExtStop? || r.intern.IntStopped?)
  {
    var b := StopBegun(s, OperationAborted);
    BatchMail(b, Front(b.lists.active), cfg.maxStopping);
    StopBatchFrame(b, Front(b.lists.active), cfg.maxStopping);
  }

  /** A wait is refused out of turn, told the recorded cause once work has ended,
      and parked before. */
  lemma WaitTold(cfg: Config, s: State, id: nat, env: Env, alloc: Option<W>)
    requires Inv(cfg, s) && Enabled(s, Event.Wait(id), env, alloc)
    ensures var r := Step(cfg, s, Event.Wait(id), env, alloc);
            && r == s.(mail := r.mail)
            && (if s.extern.ExtWork? && s.intern.IntWork? && s.mail.waitHandler.None?
                then r.mail.waitHandler == Some(id) && r.mail.posted == s.mail.posted
                else r.mail.posted == s.mail.posted
                       + [Completion(id, if s.extern.ExtWork? && !s.intern.IntWork? then s.mail.waitError else InvalidState)])
  {
  }

  lemma ScheduledExtern(cfg: Config, s: State)
    requires Inv(cfg, s) && s.ops.scheduled
    ensures var r := HandleStopScheduled(cfg, s);
            !r.intern.IntWork? && (r.extern == s.extern || (s.extern.ExtStop? && r.extern.ExtStopped?))
  {
    hide ContinueStop;
    var q := s.(pending := s.pending - 1, ops := s.ops.(scheduled := false));
    BatchMail(q, q.lists.stoppingEnd, cfg.maxStopping);
    StopExtern(ScheduleIfMore(StopBatch(q, q.lists.stoppingEnd, cfg.maxStopping)));
  }

  lemma WorkTellsNothing(cfg: Config, s: State, event: Event, env: Env, alloc: Option<W>)
    requires Inv(cfg, s) && Enabled(s, event, env, alloc) && (IsCompletion(event) || event.StopScheduled?)
    ensures var r := Step(cfg, s, event, env, alloc); r.intern.IntWork? ==> r.mail == s.mail
    ensures var r := Step(cfg, s, event, env, alloc);
            r.extern == s.extern || (s.extern.ExtStop? && r.extern.ExtStopped?)
  {
    hide Complete, ContinueWork, Decides, HandleStopScheduled;
    if event.StopScheduled? {
      ScheduledExtern(cfg, s);
    } else if s.intern.IntWork? {
      StepDecides(cfg, s, event, env, alloc);
      DecidesMail(cfg, Midway(cfg, s, event), env, alloc, Step(cfg, s, event, env, alloc));
    } else {
      CompletionAcceptor(cfg, s, event, env, alloc);
      StopExtern(Complete(cfg, s, event));
    }
  }

  lemma DecidesMail(cfg: Config, c: State, env: Env, alloc: Option<W>, r: State)
    requires Decides(cfg, c, env, alloc, r)
    ensures r.extern == c.extern && (r.intern.IntWork? ==> r.mail == c.mail)
  {
  }

  lemma StopExtern(s: State)
    ensures var r := ContinueStop(s);
            r.intern == s.intern || r.intern.IntStopped?
    ensures var r := ContinueStop(s);
            r.extern == s.extern || (s.extern.ExtStop? && r.extern.ExtStopped?)
  {
  }

  /** While operations complete, nothing is posted but a parked wait, with the
      recorded cause, once work has ended, and a parked stop, with success, once
      the manager has stopped; and both are posted then. */
  lemma CompletionsTold(cfg: Config, s: State, event: Event, env: Env, alloc: Option<W>)
    requires Inv(cfg, s) && Enabled(s, event, env, alloc) && (IsCompletion(event) || event.StopScheduled?)
    ensures var r := Step(cfg, s, event, env, alloc);
            r.mail.posted == s.mail.posted
              + (if s.mail.waitHandler.Some? && !r.intern.IntWork?
                 then [Completion(s.mail.waitHandler.value, r.mail.waitError)] else [])
              + (if s.mail.stopHandler.Some? && r.intern.IntStopped?
                 then [Completion(s.mail.stopHandler.value, Success)] else [])
  {
    hide Step, Enabled;
    CompletionForward(cfg, s, event, env, alloc);
    WorkTellsNothing(cfg, s, event, env, alloc);
    StepKeeps(cfg, s, event, env, alloc);
    ForwardPosts(cfg, s, Step(cfg, s, event, env, alloc));
  }

  lemma ForwardPosts(cfg: Config, s: State, r: State)
    requires Inv(cfg, s) && Inv(cfg, r) && Forward(s.mail, r.mail) && (r.intern.IntWork? ==> r.mail == s.mail)
    requires r.extern == s.extern || (s.extern.ExtStop? && r.extern.ExtStopped?)
    ensures r.mail.posted == s.mail.posted
              + (if s.mail.waitHandler.Some? && !r.intern.IntWork?
                 then [Completion(s.mail.waitHandler.value, r.mail.waitError)] else [])
              + (if s.mail.stopHandler.Some? && r.intern.IntStopped?
                 then [Completion(s.mail.stopHandler.value, Success)] else [])
  {
    hide Book, Cursor, Tally, Capacity;
  }

  // ----- whether the acceptor is open

  /** The acceptor is open while a connection is waited for, and closed at the limit
      of sessions, before the start and once work has ended. */
  predicate Listening(cfg: Config, s: State) {
    && (!s.intern.IntWork? || s.extern.ExtReady? ==> !s.acceptorOpen)
    && (s.intern.IntWork? && s.accept.AcceptInProgress? ==> s.acceptorOpen)
    && (s.intern.IntWork? && s.accept.AcceptReady? && |s.lists.active| >= cfg.maxSessions ==> !s.acceptorOpen)
  }

  lemma NextAcceptListens(cfg: Config, c: State, env: Env, alloc: Option<W>)
    requires c.intern.IntWork? && c.extern.ExtWork? && !c.mail.waitError.Failed() && c.mail.stopHandler.None?
    requires c.acceptorOpen && |c.lists.active| < cfg.maxSessions
    ensures Listening(cfg, NextAccept(cfg, c, env, alloc))
  {
    hide StartStop;
    var (q, w, error) := CreateSession(c, env, alloc);
    if error.Failed() {
      StartStopRecords(cfg, q.(acceptError := error).Accepting(AcceptStopped), error);
    }
  }

  lemma ContinueListens(cfg: Config, c: State, env: Env, alloc: Option<W>)
    requires cfg.Valid() && c.extern.ExtWork? && c.intern.IntWork? && !c.mail.waitError.Failed() && c.mail.stopHandler.None?
    requires c.accept.AcceptStopped? ==> c.acceptError.Failed()
    requires c.accept.AcceptInProgress? ==> c.acceptorOpen
    ensures Listening(cfg, ContinueWork(cfg, c, env, alloc))
  {
    hide StartStop, NextAccept;
    if c.lists.active == [] && c.accept.AcceptStopped? {
      StartStopRecords(cfg, c, c.acceptError);
    } else if c.accept.AcceptReady? && |c.lists.active| < cfg.maxSessions {
      if OpenFails(c, env) {
        if c.lists.active == [] {
          StartStopRecords(cfg, c.(acceptError := env.open, accept := AcceptStopped), env.open);
        }
      } else {
        NextAcceptListens(cfg, if c.acceptorOpen then c else c.(acceptorOpen := true, acceptError := Success), env, alloc);
      }
    }
  }

  lemma GoingListens(cfg: Config, c: State, env: Env, alloc: Option<W>)
    requires Going(cfg, c) && c.intern.IntWork? && (c.accept.AcceptInProgress? ==> c.acceptorOpen)
    ensures Listening(cfg, ContinueWork(cfg, c, env, alloc))
  {
    hide ContinueWork, Listening;
    ContinueListens(cfg, c, env, alloc);
  }

  lemma ClosedStays(cfg: Config, s: State)
    requires !s.acceptorOpen && s.intern.IntStop?
    ensures var r := ContinueStop(s); !r.acceptorOpen && !r.intern.IntWork?
    ensures var r := HandleStopScheduled(cfg, s); !r.acceptorOpen && !r.intern.IntWork?
  {
    var q := s.(pending := s.pending - 1, ops := s.ops.(scheduled := false));
    StopBatchFrame(q, q.lists.stoppingEnd, cfg.maxStopping);
  }

  lemma RequestListens(cfg: Config, s: State, event: Event, env: Env, alloc: Option<W>)
    requires Inv(cfg, s) && Enabled(s, event, env, alloc) && !IsCompletion(event) && Listening(cfg, s)
    ensures Listening(cfg, Step(cfg, s, event, env, alloc))
  {
    hide ContinueWork, StartStop, HandleStopScheduled;
    match event
    case Start(id) =>
      if s.extern.ExtReady? {
        ContinueListens(cfg, s.(extern := ExtWork, mail := IssueMail(s.mail, id)), env, alloc);
      }
    case Stop(id) =>
      var i := s.(mail := IssueMail(s.mail, id));
      if s.intern.IntWork? && !s.extern.ExtStop? && !s.extern.ExtStopped? {
        StopFromWork(cfg, i.(extern := ExtStop, mail := CompleteExternWait(i.mail, OperationAborted)));
      }
    case StopScheduled => ClosedStays(cfg, s);
    case _ =>
  }

  lemma StepListens(cfg: Config, s: State, event: Event, env: Env, alloc: Option<W>)
    requires Inv(cfg, s) && Enabled(s, event, env, alloc) && Listening(cfg, s)
    ensures Listening(cfg, Step(cfg, s, event, env, alloc))
  {
    hide Complete, ContinueWork;
    if !IsCompletion(event) {
      RequestListens(cfg, s, event, env, alloc);
    } else {
      var c := Midway(cfg, s, event);
      CompletionAcceptor(cfg, s, event, env, alloc);
      CompletionPasses(cfg, s, event, env, alloc);
      if s.intern.IntWork? {
        GoingListens(cfg, c, env, alloc);
      } else {
        ClosedStays(cfg, c);
      }
    }
  }

  lemma {:induction false} ListeningOverRun(cfg: Config, s: State, run: seq<Happening>)
    requires Inv(cfg, s) && Runs(cfg, s, run) && Listening(cfg, s)
    ensures Listening(cfg, After(cfg, s, run))
    decreases |run|
  {
    hide Step, Listening;
    if run != [] {
      StepKeeps(cfg, s, run[0].event, run[0].env, run[0].alloc);
      StepListens(cfg, s, run[0].event, run[0].env, run[0].alloc);
      ListeningOverRun(cfg, Step(cfg, s, run[0].event, run[0].env, run[0].alloc), run[1..]);
    }
  }

  // ----- after a failed accept

  lemma FailedAcceptLists(cfg: Config, s: State, w: W, error: Error, env: Env, alloc: Option<W>)
    requires Inv(cfg, s) && Enabled(s, AcceptDone(w, error), env, alloc) && s.intern.IntWork? && error.Failed()
    ensures var c := Midway(cfg, s, AcceptDone(w, error));
            && c.lists.active == s.lists.active
            && c.lists.recycled == (if |s.lists.recycled| < cfg.recycledSessions then [w] else []) + s.lists.recycled
  {
    Open(s, w);
    assert [] + s.lists.recycled == s.lists.recycled;
  }

  /** After which accept errors the manager goes on.  Out of descriptors, it accepts
      again at once if a session can be had, and never gives the acceptor up while
      it serves a session.  Any other error is kept and nothing is accepted any
      more: the sessions are served on, and without any the work ends with just
      that error. */
  lemma AcceptFailure(cfg: Config, s: State, w: W, error: Error, env: Env, alloc: Option<W>)
    requires Inv(cfg, s) && Listening(cfg, s) && Enabled(s, AcceptDone(w, error), env, alloc)
    requires s.intern.IntWork? && error.Failed()
    ensures var r := Step(cfg, s, AcceptDone(w, error), env, alloc);
            if error == NoDescriptors then
              && (!env.create.Failed() && (s.lists.recycled != [] || cfg.recycledSessions > 0 || alloc.Some?) ==>
                    r.intern.IntWork? && r.accept.AcceptInProgress? && r.acceptorOpen)
              && (s.lists.active != [] ==> r.intern.IntWork? && !r.accept.AcceptStopped?)
            else
              && r.accept.AcceptStopped? && r.acceptError == error
              && (r.intern.IntWork? <==> s.lists.active != [])
              && (!r.intern.IntWork? ==> r.mail.waitError == error)
  {
    hide Step, Complete;
    StepDecides(cfg, s, AcceptDone(w, error), env, alloc);
    FailedAcceptLists(cfg, s, w, error, env, alloc);
    AcceptFindsRoom(cfg, s);
    StepListens(cfg, s, AcceptDone(w, error), env, alloc);
  }

  /** After an accept that succeeds the session is asked to start, and the next one
      is accepted if there is room and it can be had. */
  lemma AcceptSuccess(cfg: Config, s: State, w: W, env: Env, alloc: Option<W>)
    requires Inv(cfg, s) && Listening(cfg, s) && Enabled(s, AcceptDone(w, Success), env, alloc) && s.intern.IntWork?
    ensures var r := Step(cfg, s, AcceptDone(w, Success), env, alloc);
            && r.intern.IntWork? && r.lists.active == [w] + s.lists.active && w in r.ops.starting
            && (r.accept.AcceptInProgress? <==>
                  |s.lists.active| + 1 < cfg.maxSessions && !env.create.Failed() && (s.lists.recycled != [] || alloc.Some?))
            && (|s.lists.active| + 1 == cfg.maxSessions ==> !r.acceptorOpen)
  {
    hide Complete, ContinueWork;
    StepDecides(cfg, s, AcceptDone(w, Success), env, alloc);
    AcceptFindsRoom(cfg, s);
    AcceptedLists(cfg, s, w);
    StepListens(cfg, s, AcceptDone(w, Success), env, alloc);
    var c := Midway(cfg, s, AcceptDone(w, Success));
    GoesOnServing(cfg, c, env, alloc);
  }

  lemma AcceptedLists(cfg: Config, s: State, w: W)
    requires s.intern.IntWork? && s.accept.AcceptInProgress? && |s.lists.active| < cfg.maxSessions
    ensures var c := Complete(cfg, s, AcceptDone(w, Success));
            c.lists.active == [w] + s.lists.active && c.lists.recycled == s.lists.recycled && w in c.ops.starting
  {
  }

  /** A manager that serves sessions goes on with them. */
  lemma GoesOnServing(cfg: Config, c: State, env: Env, alloc: Option<W>)
    requires c.intern.IntWork? && c.lists.active != []
    ensures var r := ContinueWork(cfg, c, env, alloc);
            r.intern.IntWork? && r.lists.active == c.lists.active && r.ops.starting == c.ops.starting
  {
    hide StartStop;
  }

  // ----- a reset

  /** A manager with nothing outstanding is renewed by a reset: it is ready to
      start, serves no session and has counted none, has no cause recorded and no
      handler parked; the recycled wrappers are freed if that was asked. */
  lemma ResetRenews(cfg: Config, s: State, freeRecycled: bool, env: Env, alloc: Option<W>)
    requires Inv(cfg, s) && Enabled(s, Event.Reset(freeRecycled), env, alloc)
    ensures var r := Step(cfg, s, Event.Reset(freeRecycled), env, alloc);
            && r.extern.ExtReady? && r.intern.IntWork? && r.accept.AcceptReady? && !r.acceptorOpen && r.pending == 0
            && r.lists.active == [] && r.lists.recycled == (if freeRecycled then [] else s.lists.recycled)
            && r.stats == Initial().stats && r.ops == Initial().ops && r.past.held == {}
            && r.mail == Mail(Success, None, None, s.mail.issued, s.mail.posted)
  {
    NothingOutstanding(s);
  }
}

/** The external requests of the session manager: each is answered exactly once
    or still parked, and the first recorded end of work stays recorded. */
module ManagerMail {
  import opened Errors
  import opened ExternRequests
  import opened SessionWrappers
  import opened ManagerSpec
  import opened ManagerProofs
  import opened ManagerSteps
  import opened ManagerDrain

  lemma {:induction false} BatchMail(s: State, begin: Option<W>, count: nat)
    ensures var r := StopBatch(s, begin, count); r.mail == s.mail && r.extern == s.extern && r.intern == s.intern
    decreases count
  {
    if count != 0 && begin.Some? {
      BatchMail(StopNext(s, begin.value), Next(s.lists.active, begin.value), count - 1);
    }
  }

  lemma ContinueStopForward(s: State)
    ensures Forward(s.mail, ContinueStop(s).mail)
  {
  }

  lemma StartStopForward(cfg: Config, s: State, error: Error)
    requires s.extern.ExtWork? ==> s.mail.stopHandler.None?
    ensures Forward(s.mail, StartStop(cfg, s, error).mail)
  {
    var b := StopBegun(s, error);
    BatchMail(b, Front(b.lists.active), cfg.maxStopping);
    var q := ScheduleIfMore(StopBatch(b, Front(b.lists.active), cfg.maxStopping));
    assert q.mail == b.mail && q.extern == s.extern;
    ContinueStopForward(q);
    if s.extern.ExtWork? {
      assert ContinueStop(q).mail == b.mail;
      CompleteWaitForward(s.mail, error);
    } else {
      assert b.mail == s.mail;
    }
  }

  lemma ScheduledForward(cfg: Config, s: State)
    ensures Forward(s.mail, HandleStopScheduled(cfg, s).mail)
  {
    var r := s.(pending := s.pending - 1, ops := s.ops.(scheduled := false));
    BatchMail(r, r.lists.stoppingEnd, cfg.maxStopping);
    ContinueStopForward(ScheduleIfMore(StopBatch(r, r.lists.stoppingEnd, cfg.maxStopping)));
  }

  lemma NextAcceptForward(cfg: Config, s: State, env: Env, alloc: Option<W>)
    requires s.extern.ExtWork? ==> s.mail.stopHandler.None?
    ensures Forward(s.mail, NextAccept(cfg, s, env, alloc).mail)
  {
    var (r, w, error) := CreateSession(s, env, alloc);
    var q := r.(acceptError := error);
    assert r.mail == s.mail && r.extern == s.extern;
    if error.Failed() && q.lists.active == [] {
      StartStopForward(cfg, q.Accepting(AcceptStopped), error);
    }
  }

  lemma ContinueWorkForward(cfg: Config, s: State, env: Env, alloc: Option<W>)
    requires s.extern.ExtWork? ==> s.mail.stopHandler.None?
    ensures Forward(s.mail, ContinueWork(cfg, s, env, alloc).mail)
  {
    var c := s.Check(s.intern.IntWork?);
    if c.lists.active == [] && c.accept.AcceptStopped? {
      StartStopForward(cfg, c, c.acceptError);
    } else if c.accept.AcceptReady? && |c.lists.active| < cfg.maxSessions {
      if !c.acceptorOpen && env.open.Failed() {
        var r := c.(acceptError := env.open, accept := AcceptStopped);
        if r.lists.active == [] {
          StartStopForward(cfg, r, env.open);
        }
      } else {
        NextAcceptForward(cfg, if c.acceptorOpen then c else c.(acceptorOpen := true, acceptError := Success), env, alloc);
      }
    }
  }

  lemma ContinueForward(cfg: Config, s: State, env: Env, alloc: Option<W>)
    requires s.extern.ExtWork? ==> s.mail.stopHandler.None?
    ensures Forward(s.mail, Continue(cfg, s, env, alloc).mail)
  {
    if s.intern.IntWork? {
      ContinueWorkForward(cfg, s, env, alloc);
    } else {
      ContinueStopForward(s);
    }
  }

  // ----- the completions

  predicate SameMail(s: State, r: State) { r.mail == s.mail && r.extern == s.extern }

  lemma RecycleMail(cfg: Config, s: State, w: W)
    ensures SameMail(s, Recycle(cfg, s, w))
  {
  }

  lemma StartMail(cfg: Config, s: State, w: W, error: Error)
    ensures SameMail(s, SessionStartDone(cfg, s, w, error))
  {
    var r := StartCompleted(s, w);
    if !ViewOf(r, w).state.Start? {
      RecycleMail(cfg, r.Count(r.stats.SessionStopped(OperationAborted)), w);
    } else if error.Failed() {
      RecycleMail(cfg, RemoveFromActive(Mark(r.Count(r.stats.SessionStopped(error)), w, WrapperState.Stopped), w), w);
    }
  }

  lemma WaitMail(cfg: Config, s: State, w: W, error: Error)
    ensures SameMail(s, SessionWaitDone(cfg, s, w, error))
  {
    var r := WaitCompleted(s, w);
    RecycleMail(cfg, r.Count(r.stats.SessionStopped(OperationAborted)), w);
  }

  lemma StopMail(cfg: Config, s: State, w: W, error: Error)
    ensures SameMail(s, SessionStopDone(cfg, s, w, error))
  {
    var r := StopCompleted(s, w);
    if !ViewOf(r, w).state.Stop? {
      RecycleMail(cfg, r, w);
    } else {
      RecycleMail(cfg, RemoveFromActive(Mark(r.Check(!error.Failed()), w, WrapperState.Stopped), w), w);
    }
  }

  lemma AcceptMail(cfg: Config, s: State, w: W, error: Error)
    ensures SameMail(s, AcceptedAtWork(cfg, s, w, error)) && SameMail(s, AcceptedAtStop(cfg, s, w, error))
  {
    var r, q := AcceptCompleted(s, AcceptReady, error), AcceptCompleted(s, AcceptStopped, error);
    RecycleMail(cfg, if error.Failed() then AcceptGivenUp(r, error)
                     else r.Count(r.stats.SessionStopped(OperationAborted)), w);
    RecycleMail(cfg, if error.Failed() then q else q.Count(q.stats.SessionStopped(OperationAborted)), w);
  }

  lemma CompletionMail(cfg: Config, s: State, event: Event)
    requires IsCompletion(event)
    ensures SameMail(s, Complete(cfg, s, event))
  {
    match event
    case AcceptDone(w, error) => AcceptMail(cfg, s.Check(s.accept.AcceptInProgress?), w, error);
    case SessionStarted(w, error) => StartMail(cfg, s, w, error);
    case SessionWaited(w, error) => WaitMail(cfg, s, w, error);
    case SessionStopped(w, error) => StopMail(cfg, s, w, error);
  }

  /** Completions only answer parked handlers, and never change the first
      recorded cause. */
  lemma CompletionForward(cfg: Config, s: State, event: Event, env: Env, alloc: Option<W>)
    requires Inv(cfg, s) && Enabled(s, event, env, alloc) && !IsRequest(event) && !event.Reset?
    ensures Forward(s.mail, Step(cfg, s, event, env, alloc).mail)
  {
    if event.StopScheduled? {
      ScheduledForward(cfg, s);
    } else if !s.intern.IntStopped? {
      CompletionMail(cfg, s, event);
      ContinueForward(cfg, Complete(cfg, s, event), env, alloc);
    }
  }

  // ----- the requests

  lemma StartSettles(cfg: Config, s: State, id: nat, env: Env, alloc: Option<W>)
    requires Settled(s.mail) && id !in s.mail.issued && (!s.extern.ExtStop? ==> s.mail.stopHandler.None?)
    ensures Settled(DoStart(cfg, s.(mail := IssueMail(s.mail, id)), id, env, alloc).mail)
  {
    var i := s.(mail := IssueMail(s.mail, id));
    IssueShorts(s.mail, id);
    if !s.extern.ExtReady? {
      PostSettles(i.mail, id, InvalidState);
    } else {
      var r := ContinueWork(cfg, i.(extern := ExtWork), env, alloc);
      ContinueWorkForward(cfg, i.(extern := ExtWork), env, alloc);
      ForwardKeeps(i.mail, r.mail);
      PostSettles(r.mail, id, r.mail.waitError);
      PostSettles(r.mail, id, Success);
    }
  }

  lemma StopSettles(cfg: Config, s: State, id: nat)
    requires Settled(s.mail) && id !in s.mail.issued && (!s.extern.ExtStop? ==> s.mail.stopHandler.None?)
    ensures Settled(DoStop(cfg, s.(mail := IssueMail(s.mail, id)), id).mail)
  {
    var i := s.(mail := IssueMail(s.mail, id));
    IssueShorts(s.mail, id);
    if s.extern.ExtStopped? || s.extern.ExtStop? {
      PostSettles(i.mail, id, InvalidState);
    } else {
      var r := i.(extern := ExtStop, mail := CompleteExternWait(i.mail, OperationAborted));
      CompleteWaitKeeps(i.mail, id, OperationAborted);
      StopBegunSettles(cfg, r, id);
    }
  }

  lemma CompleteWaitKeeps(m: Mail, id: nat, error: Error)
    requires OneShort(m, id)
    ensures OneShort(CompleteExternWait(m, error), id) && CompleteExternWait(m, error).stopHandler == m.stopHandler
  {
    CompleteWaitForward(m, error);
    ForwardKeeps(m, CompleteExternWait(m, error));
  }

  lemma StopBegunSettles(cfg: Config, r: State, id: nat)
    requires OneShort(r.mail, id) && r.mail.stopHandler.None?
    ensures Settled(AnswerStop(if r.intern.IntWork? then StartStop(cfg, r, OperationAborted) else r, id).mail)
  {
    var q := if r.intern.IntWork? then StartStop(cfg, r, OperationAborted) else r;
    if r.intern.IntWork? {
      StartStopForward(cfg, r, OperationAborted);
      ForwardKeeps(r.mail, q.mail);
    }
    AnswerSettles(q, id);
  }

  lemma AnswerSettles(q: State, id: nat)
    requires OneShort(q.mail, id) && q.mail.stopHandler.None?
    ensures Settled(AnswerStop(q, id).mail)
  {
    PostSettles(q.mail, id, Success);
  }

  lemma WaitSettles(s: State, id: nat)
    requires Settled(s.mail) && id !in s.mail.issued
    ensures Settled(DoWait(s.(mail := IssueMail(s.mail, id)), id).mail)
  {
    IssueShorts(s.mail, id);
    var i := s.(mail := IssueMail(s.mail, id));
    if !s.extern.ExtWork? || s.mail.waitHandler.Some? {
      PostSettles(i.mail, id, InvalidState);
    } else if !s.intern.IntWork? {
      PostSettles(i.mail, id, i.mail.waitError);
    } else {
      assert DoWait(i, id).mail == i.mail.(waitHandler := Some(id));
    }
  }

  lemma SettledStep(cfg: Config, s: State, event: Event, env: Env, alloc: Option<W>)
    requires Inv(cfg, s) && Enabled(s, event, env, alloc) && Settled(s.mail)
    ensures Settled(Step(cfg, s, event, env, alloc).mail)
  {
    if event.Start? {
      StartSettles(cfg, s, event.id, env, alloc);
    } else if event.Stop? {
      StopSettles(cfg, s, event.id);
    } else if event.Wait? {
      WaitSettles(s, event.id);
    } else if !event.Reset? {
      CompletionForward(cfg, s, event, env, alloc);
      ForwardKeeps(s.mail, Step(cfg, s, event, env, alloc).mail);
    }
  }

  /** Over every run each request is answered exactly once or still parked, and
      a stopped manager has answered all of them. */
  lemma {:induction false} AnsweredExactlyOnce(cfg: Config, s: State, run: seq<Happening>)
    requires Inv(cfg, s) && Runs(cfg, s, run) && Settled(s.mail)
    ensures var r := After(cfg, s, run);
            Settled(r.mail) && (r.intern.IntStopped? ==> Answered(r.mail.posted) == multiset(r.mail.issued))
    decreases |run|
  {
    if run != [] {
      var h := run[0];
      StepKeeps(cfg, s, h.event, h.env, h.alloc);
      SettledStep(cfg, s, h.event, h.env, h.alloc);
      AnsweredExactlyOnce(cfg, Step(cfg, s, h.event, h.env, h.alloc), run[1..]);
    }
  }

  // ----- the recorded end of work

  lemma StopCause(cfg: Config, s: State, id: nat)
    requires s.mail.waitError.Failed() && (!s.extern.ExtStop? ==> s.mail.stopHandler.None?)
    ensures DoStop(cfg, s, id).mail.waitError == s.mail.waitError
  {
    hide StartStop;
    if !s.extern.ExtStopped? && !s.extern.ExtStop? {
      var r := s.(extern := ExtStop, mail := CompleteExternWait(s.mail, OperationAborted));
      StartStopForward(cfg, r, OperationAborted);
    }
  }

  lemma CauseStep(cfg: Config, s: State, event: Event, env: Env, alloc: Option<W>)
    requires Inv(cfg, s) && Enabled(s, event, env, alloc) && !event.Reset? && s.mail.waitError.Failed()
    ensures Step(cfg, s, event, env, alloc).mail.waitError == s.mail.waitError
  {
    hide DoStop, HandleCompletion, HandleStopScheduled, ContinueWork;
    if event.Stop? {
      StopCause(cfg, s.(mail := IssueMail(s.mail, event.id)), event.id);
    } else if !IsRequest(event) {
      CompletionForward(cfg, s, event, env, alloc);
    }
  }

  /** The first cause recorded for the end of work stays recorded until a reset. */
  lemma {:induction false} FirstCauseStays(cfg: Config, s: State, run: seq<Happening>)
    requires Inv(cfg, s) && Runs(cfg, s, run) && NoReset(run) && s.mail.waitError.Failed()
    ensures After(cfg, s, run).mail.waitError == s.mail.waitError
    decreases |run|
  {
    if run != [] {
      var h := run[0];
      assert !h.event.Reset?;
      StepKeeps(cfg, s, h.event, h.env, h.alloc);
      CauseStep(cfg, s, h.event, h.env, h.alloc);
      FirstCauseStays(cfg, Step(cfg, s, h.event, h.env, h.alloc), run[1..]);
    }
  }
}

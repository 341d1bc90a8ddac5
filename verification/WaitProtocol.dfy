/** What the waiting side of a session hears: the recorded end of its work, and
    nothing else. */
module WaitProtocol {
  import opened Errors
  import opened ExternRequests
  import opened SessionSpec
  import opened SessionProofs
  import opened SessionMail
  import opened SessionEnds
  import opened StopProtocol
  import SessionFrames
  import R = SessionWrappers

  /** An answer to the wait is the recorded cause, which is a failure, unless the
      session was never started. */
  predicate WaitAnswer(m: Mail, t: Track, c: Completion) {
    t.wait == Some(c.id) && !t.refused ==> c.error == m.waitError && m.waitError.Failed()
  }

  /** Nobody waits but the tracked request, and it is told the recorded cause. */
  predicate WaitTracked(m: Mail, t: Track) {
    && (m.waitHandler.Some? ==> m.waitHandler == t.wait)
    && (t.wait.Some? ==> t.wait.value in m.issued && R.AskWait in t.asked && t.wait != t.start && t.wait != t.stop)
    && (forall i | 0 <= i < |m.posted| :: m.posted[i].id in m.issued && WaitAnswer(m, t, m.posted[i]))
  }

  lemma CompletionWaits(cfg: Config, s: State, event: Event, env: Env, t: Track)
    requires Inv(cfg, s) && Enabled(s, event, env) && Tracked(s, t) && WaitTracked(s.mail, t)
    requires event.ReadDone? || event.WriteDone? || event.TimerDone?
    ensures WaitTracked(Step(cfg, s, event, env).mail, t)
  {
    hide Step, Enabled, Echo, Timing, Lent, AnswerTracked, R.InOrder;
    var r := Step(cfg, s, event, env);
    CompletionsTold(cfg, s, event, env);
    CompletionForward(cfg, s, event, env);
    if s.mail.waitHandler.Some? && !r.intern.IntWork? {
      RecordsCause(cfg, s, event, env);
      NoRefusal(s, event);
    }
    Answers(cfg, s, r, t);
  }

  lemma NoRefusal(s: State, event: Event)
    requires !event.Start?
    ensures !Refuses(s, event)
  {
  }

  lemma Answers(cfg: Config, s: State, r: State, t: Track)
    requires Inv(cfg, s) && Tracked(s, t) && WaitTracked(s.mail, t) && Forward(s.mail, r.mail)
    requires s.mail.waitHandler.Some? && !r.intern.IntWork? ==> r.mail.waitError.Failed()
    requires r.mail.posted == s.mail.posted
               + (if s.mail.waitHandler.Some? && !r.intern.IntWork?
                  then [Completion(s.mail.waitHandler.value, r.mail.waitError)] else [])
               + (if s.mail.stopHandler.Some? && r.intern.IntStopped?
                  then [Completion(s.mail.stopHandler.value, Success)] else [])
    ensures WaitTracked(r.mail, t)
  {
    hide Echo, Timing, Lent, R.InOrder;
    var m, n := s.mail, r.mail;
    forall i | 0 <= i < |n.posted| ensures n.posted[i].id in n.issued && WaitAnswer(n, t, n.posted[i]) {
      if i < |m.posted| {
        assert n.posted[i] == m.posted[i] && WaitAnswer(m, t, m.posted[i]);
      }
    }
  }

  lemma StartWaits(cfg: Config, s: State, event: Event, env: Env, t: Track)
    requires Inv(cfg, s) && Enabled(s, event, env) && Tracked(s, t) && WaitTracked(s.mail, t)
    requires event.Start? && R.InOrder(Next(t, event).asked)
    ensures WaitTracked(Step(cfg, s, event, env).mail, Next(t, event))
  {
    hide Step, Echo, Timing, Lent, AnswerTracked;
    var r := Step(cfg, s, event, env);
    OrderStart(t.asked);
    RequestsTold(cfg, s, event, env);
    RequestMail(cfg, s, event, env);
    var u := Next(t, event);
    forall i | 0 <= i < |r.mail.posted| ensures r.mail.posted[i].id in r.mail.issued && WaitAnswer(r.mail, u, r.mail.posted[i]) {
      assert i < |s.mail.posted| ==> r.mail.posted[i] == s.mail.posted[i];
    }
  }

  /** Serving a request parks no other wait, and issues no other request. */
  lemma RequestMail(cfg: Config, s: State, event: Event, env: Env)
    requires Inv(cfg, s) && Enabled(s, event, env) && (event.Start? || event.Wait? || event.Stop?)
    ensures var m, n := s.mail, Step(cfg, s, event, env).mail;
            && n.issued == m.issued + {event.id}
            && (n.waitHandler == m.waitHandler || n.waitHandler.None? || (event.Wait? && n.waitHandler == Some(event.id)))
            && (m.waitError.Failed() ==> n.waitError == m.waitError)
  {
    hide Echo, Timing, ContinueWork, StartShutdown;
    if event.Start? && s.extern.ExtReady? && !event.options.Failed() {
      SessionFrames.WorkSteady(cfg, s.Issue(event.id).(extern := ExtWork, started := true).Touched(env.now), env);
    } else if event.Stop? && s.intern.IntWork? && !s.extern.ExtStop? && !s.extern.ExtStopped? {
      var i := s.Issue(event.id);
      var s1 := i.(extern := ExtStop, mail := CompleteExternWait(i.mail, OperationAborted));
      SessionFrames.StartShutdownSteady(cfg, s1, OperationAborted, false, env);
    }
  }

  lemma WaitWaits(cfg: Config, s: State, event: Event, env: Env, t: Track)
    requires Inv(cfg, s) && Enabled(s, event, env) && Tracked(s, t) && WaitTracked(s.mail, t)
    requires event.Wait? && R.InOrder(Next(t, event).asked)
    ensures WaitTracked(Step(cfg, s, event, env).mail, Next(t, event))
  {
    hide Echo, Timing, Lent, AnswerTracked;
    OrderWait(t.asked);
    var u, r := Next(t, event), Step(cfg, s, event, env);
    assert u.asked == [R.AskStart, R.AskWait];
    forall i | 0 <= i < |r.mail.posted| ensures r.mail.posted[i].id in r.mail.issued && WaitAnswer(r.mail, u, r.mail.posted[i]) {
      assert i < |s.mail.posted| ==> r.mail.posted[i] == s.mail.posted[i];
    }
  }

  lemma StopWaits(cfg: Config, s: State, event: Event, env: Env, t: Track)
    requires Inv(cfg, s) && Enabled(s, event, env) && Tracked(s, t) && WaitTracked(s.mail, t)
    requires event.Stop? && R.InOrder(Next(t, event).asked)
    ensures WaitTracked(Step(cfg, s, event, env).mail, Next(t, event))
  {
    hide Step, Echo, Timing, Lent, AnswerTracked;
    var u, r := Next(t, event), Step(cfg, s, event, env);
    OrderStop(t.asked);
    RequestsTold(cfg, s, event, env);
    RequestMail(cfg, s, event, env);
    if s.mail.waitHandler.Some? {
      StopRecords(cfg, s, event, env);
    }
    StepKeeps(cfg, s, event, env);
    forall i | 0 <= i < |r.mail.posted| ensures r.mail.posted[i].id in r.mail.issued && WaitAnswer(r.mail, u, r.mail.posted[i]) {
      if i < |s.mail.posted| {
        assert r.mail.posted[i] == s.mail.posted[i] && WaitAnswer(s.mail, t, s.mail.posted[i]);
      }
    }
  }

  /** A wait that is parked when the session is asked to stop is told so. */
  lemma StopRecords(cfg: Config, s: State, event: Event, env: Env)
    requires Inv(cfg, s) && Enabled(s, event, env) && event.Stop? && s.mail.waitHandler.Some?
    ensures Step(cfg, s, event, env).mail.waitError == OperationAborted
  {
    hide Step, Echo, Timing, Lent;
    LeavesWorkIff(cfg, s, event, env);
    RecordsCause(cfg, s, event, env);
  }

  lemma WaitStep(cfg: Config, s: State, event: Event, env: Env, t: Track)
    requires Inv(cfg, s) && Enabled(s, event, env) && Tracked(s, t) && WaitTracked(s.mail, t) && !event.Reset?
    requires R.InOrder(Next(t, event).asked)
    ensures WaitTracked(Step(cfg, s, event, env).mail, Next(t, event))
  {
    hide Step, Inv, Enabled, Tracked, WaitTracked, R.InOrder;
    match event
    case Start(_, _) => StartWaits(cfg, s, event, env, t);
    case Wait(_) => WaitWaits(cfg, s, event, env, t);
    case Stop(_) => StopWaits(cfg, s, event, env, t);
    case _ =>
      assert t.asked + [] == t.asked;
      CompletionWaits(cfg, s, event, env, t);
  }

  /** What a reply to the wait tells. */
  lemma WaitReplied(s: State, t: Track, error: Error)
    requires WaitTracked(s.mail, t) && Replied(s.mail, t.wait, error) && !t.refused
    ensures error == s.mail.waitError && error.Failed()
  {
    var i :| 0 <= i < |s.mail.posted| && t.wait == Some(s.mail.posted[i].id) && s.mail.posted[i].error == error;
    assert WaitAnswer(s.mail, t, s.mail.posted[i]);
  }
}

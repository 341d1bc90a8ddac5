/** The external requests of a session: each is answered exactly once or still
    parked, and what a stop request is answered. */
module SessionMail {
  import opened Errors
  import opened CyclicBuffer
  import opened ExternRequests
  import opened SessionSpec
  import opened SessionProofs
  import opened SessionFrames
  import opened SessionRuns

  lemma SettledOnStart(cfg: Config, s: State, id: nat, options: Error, env: Env)
    requires Inv(cfg, s) && Enabled(s, Start(id, options), env) && Settled(s.mail)
    ensures Settled(DoStart(cfg, s.Issue(id), id, options, env).mail)
  {
    var i := s.Issue(id);
    IssueShorts(s.mail, id);
    if !s.extern.ExtReady? {
      PostSettles(i.mail, id, InvalidState);
    } else if options.Failed() {
      PostSettles(i.mail, id, options);
    } else {
      var s1 := i.(extern := ExtWork, started := true).Touched(env.now);
      WorkSteady(cfg, s1, env);
      var m := ContinueWork(cfg, s1, env).mail;
      ForwardKeeps(i.mail, m);
      PostSettles(m, id, Success);
    }
  }

  lemma SettledOnWait(s: State, id: nat)
    requires Settled(s.mail) && id !in s.mail.issued
    ensures Settled(DoWait(s.Issue(id), id).mail)
  {
    IssueShorts(s.mail, id);
    var i := s.Issue(id);
    if !s.extern.ExtWork? || s.mail.waitHandler.Some? {
      PostSettles(i.mail, id, InvalidState);
    } else if !s.intern.IntWork? {
      PostSettles(i.mail, id, i.mail.waitError);
    } else {
      assert DoWait(i, id).mail == i.mail.(waitHandler := Some(id));
    }
  }

  lemma SettledOnStop(cfg: Config, s: State, id: nat, env: Env)
    requires Inv(cfg, s) && Enabled(s, Stop(id), env) && Settled(s.mail)
    ensures Settled(DoStop(cfg, s.Issue(id), id, env).mail)
  {
    IssueShorts(s.mail, id);
    var i := s.Issue(id);
    if s.extern.ExtStopped? || s.extern.ExtStop? {
      PostSettles(i.mail, id, InvalidState);
    } else {
      var s1 := i.(extern := ExtStop, mail := CompleteExternWait(i.mail, OperationAborted));
      ForwardKeeps(i.mail, s1.mail);
      StopSettles(cfg, s1, id, env);
    }
  }

  lemma StopSettles(cfg: Config, s: State, id: nat, env: Env)
    requires OneShort(s.mail, id) && s.mail.stopHandler.None?
    requires Accounted(s) && |s.data.buffer| <= cfg.capacity && cfg.Valid() && env.Valid()
    ensures var r := if s.intern.IntWork? then StartShutdown(cfg, s, OperationAborted, false, env) else s;
            Settled(PostMail(r.mail, id, Success)) && Settled(r.mail.(stopHandler := Some(id)))
  {
    var r := if s.intern.IntWork? then StartShutdown(cfg, s, OperationAborted, false, env) else s;
    if s.intern.IntWork? {
      StartShutdownSteady(cfg, s, OperationAborted, false, env);
      ForwardKeeps(s.mail, r.mail);
    }
    assert r.mail.stopHandler.None?;
    PostSettles(r.mail, id, Success);
  }

  /** Every step keeps every request settled. */
  lemma SettledStep(cfg: Config, s: State, event: Event, env: Env)
    requires Inv(cfg, s) && Enabled(s, event, env) && Settled(s.mail)
    ensures Settled(Step(cfg, s, event, env).mail)
  {
    match event
    case Start(id, options) => SettledOnStart(cfg, s, id, options, env);
    case Stop(id) => SettledOnStop(cfg, s, id, env);
    case Wait(id) => SettledOnWait(s, id);
    case Reset =>
    case ReadDone(error, bytes) =>
      ReadFrame(cfg, s, error, bytes, env);
      ForwardKeeps(s.mail, HandleRead(cfg, s, error, bytes, env).mail);
    case WriteDone(error, count) =>
      WriteFrame(cfg, s, error, count, env);
      ForwardKeeps(s.mail, HandleWrite(cfg, s, error, count, env).mail);
    case TimerDone(error) =>
      TimerFrame(cfg, s, error, env);
      ForwardKeeps(s.mail, HandleTimer(cfg, s, error, env).mail);
  }

  /** Over every run each request is answered exactly once or still parked, and
      a stopped session has answered all of them. */
  lemma {:induction false} AnsweredExactlyOnce(cfg: Config, s: State, run: seq<Happening>)
    requires Inv(cfg, s) && Runs(cfg, s, run) && Settled(s.mail)
    ensures var r := After(cfg, s, run);
            Settled(r.mail) && (r.intern.IntStopped? ==> Answered(r.mail.posted) == multiset(r.mail.issued))
    decreases |run|
  {
    if run != [] {
      StepKeeps(cfg, s, run[0].event, run[0].env);
      SettledStep(cfg, s, run[0].event, run[0].env);
      AnsweredExactlyOnce(cfg, Step(cfg, s, run[0].event, run[0].env), run[1..]);
    }
  }

  // ----- the recorded end of work

  lemma CauseStep(cfg: Config, s: State, event: Event, env: Env)
    requires Inv(cfg, s) && Enabled(s, event, env) && !event.Reset? && s.mail.waitError.Failed()
    ensures Step(cfg, s, event, env).mail.waitError == s.mail.waitError
  {
    if event.ReadDone? {
      ReadFrame(cfg, s, event.error, event.bytes, env);
    } else if event.WriteDone? {
      WriteFrame(cfg, s, event.error, event.count, env);
    } else if event.TimerDone? {
      TimerFrame(cfg, s, event.error, env);
    } else if event.Stop? {
      StopCause(cfg, s.Issue(event.id), event.id, env);
    }
  }

  lemma StopCause(cfg: Config, s: State, id: nat, env: Env)
    requires s.mail.waitError.Failed()
    requires Accounted(s) && |s.data.buffer| <= cfg.capacity && cfg.Valid() && env.Valid()
    ensures DoStop(cfg, s, id, env).mail.waitError == s.mail.waitError
  {
    var s1 := s.(extern := ExtStop, mail := CompleteExternWait(s.mail, OperationAborted));
    if s.intern.IntWork? {
      StartShutdownSteady(cfg, s1, OperationAborted, false, env);
    }
  }

  /** The first cause recorded for the end of work stays recorded until a reset. */
  lemma {:induction false} FirstCauseStays(cfg: Config, s: State, run: seq<Happening>)
    requires Inv(cfg, s) && Runs(cfg, s, run) && NoReset(run) && s.mail.waitError.Failed()
    ensures After(cfg, s, run).mail.waitError == s.mail.waitError
    decreases |run|
  {
    if run != [] {
      assert run[0] in run;
      StepKeeps(cfg, s, run[0].event, run[0].env);
      CauseStep(cfg, s, run[0].event, run[0].env);
      FirstCauseStays(cfg, Step(cfg, s, run[0].event, run[0].env), run[1..]);
    }
  }

  // ----- what a request is told

  /** The handlers posted while a request is served, in order: the one of a wait
      that is parked when the session is asked to stop, and the request's own, if
      it is answered at once. */
  function Told(s: State, event: Event, r: State): seq<Completion> {
    match event
    case Start(id, options) => [Completion(id, if !s.extern.ExtReady? then InvalidState else options)]
    case Wait(id) =>
      if !s.extern.ExtWork? || s.mail.waitHandler.Some? then [Completion(id, InvalidState)]
      else if s.intern.IntWork? then []
      else [Completion(id, s.mail.waitError)]
    case Stop(id) =>
      if s.extern.ExtStop? || s.extern.ExtStopped? then [Completion(id, InvalidState)]
      else (if s.mail.waitHandler.Some? then [Completion(s.mail.waitHandler.value, OperationAborted)] else [])
           + (if r.intern.IntStopped? then [Completion(id, Success)] else [])
    case _ => []
  }

  lemma StartTold(cfg: Config, s: State, event: Event, env: Env)
    requires Inv(cfg, s) && Enabled(s, event, env) && event.Start?
    ensures var r := Step(cfg, s, event, env); r.mail.posted == s.mail.posted + Told(s, event, r)
  {
    hide ContinueWork, Echo, Timing;
    if s.extern.ExtReady? && !event.options.Failed() {
      WorkSteady(cfg, s.Issue(event.id).(extern := ExtWork, started := true).Touched(env.now), env);
    }
  }

  lemma StopTold(cfg: Config, s: State, event: Event, env: Env)
    requires Inv(cfg, s) && Enabled(s, event, env) && event.Stop?
    ensures var r := Step(cfg, s, event, env);
            && r.mail.posted == s.mail.posted + Told(s, event, r)
            && (s.mail.stopHandler.None? && !r.intern.IntStopped? ==> r.mail.stopHandler == Some(event.id))
  {
    hide StartShutdown, Echo, Timing;
    if s.intern.IntWork? && !s.extern.ExtStop? && !s.extern.ExtStopped? {
      var i := s.Issue(event.id);
      var s1 := i.(extern := ExtStop, mail := CompleteExternWait(i.mail, OperationAborted));
      StartShutdownSteady(cfg, s1, OperationAborted, false, env);
    }
  }

  /** Every request is told what it is due, at once or, parked, later: a start the
      error of the socket options, a wait the recorded cause or that it was asked
      for out of turn, a stop success, and a second stop that there was one. */
  lemma RequestsTold(cfg: Config, s: State, event: Event, env: Env)
    requires Inv(cfg, s) && Enabled(s, event, env) && (event.Start? || event.Wait? || event.Stop?)
    ensures var r := Step(cfg, s, event, env);
            && r.mail.posted == s.mail.posted + Told(s, event, r)
            && (event.Wait? && Told(s, event, r) == [] ==> r.mail.waitHandler == Some(event.id))
            && (event.Stop? && s.mail.stopHandler.None? && !r.intern.IntStopped? ==> r.mail.stopHandler == Some(event.id))
  {
    hide Echo, Timing;
    if event.Start? {
      StartTold(cfg, s, event, env);
    } else if event.Stop? {
      StopTold(cfg, s, event, env);
    }
  }

  /** While operations complete, nothing is posted but a parked wait, with the
      recorded cause, once work has ended, and a parked stop, with success, once
      the session has stopped; and both are posted then. */
  lemma CompletionsTold(cfg: Config, s: State, event: Event, env: Env)
    requires Inv(cfg, s) && Enabled(s, event, env) && (event.ReadDone? || event.WriteDone? || event.TimerDone?)
    ensures var r := Step(cfg, s, event, env);
            r.mail.posted == s.mail.posted
              + (if s.mail.waitHandler.Some? && !r.intern.IntWork?
                 then [Completion(s.mail.waitHandler.value, r.mail.waitError)] else [])
              + (if s.mail.stopHandler.Some? && r.intern.IntStopped?
                 then [Completion(s.mail.stopHandler.value, Success)] else [])
  {
    hide Step, Enabled;
    CompletionForward(cfg, s, event, env);
    WorkTellsNothing(cfg, s, event, env);
    StepKeeps(cfg, s, event, env);
    ForwardPosts(cfg, s, Step(cfg, s, event, env));
  }

  lemma CompletionForward(cfg: Config, s: State, event: Event, env: Env)
    requires Inv(cfg, s) && Enabled(s, event, env) && (event.ReadDone? || event.WriteDone? || event.TimerDone?)
    ensures var r := Step(cfg, s, event, env);
            Forward(s.mail, r.mail) && (r.extern == s.extern || (s.extern.ExtStop? && r.extern.ExtStopped?))
  {
    match event
    case ReadDone(error, bytes) => ReadFrame(cfg, s, error, bytes, env);
    case WriteDone(error, count) => WriteFrame(cfg, s, error, count, env);
    case TimerDone(error) => TimerFrame(cfg, s, error, env);
  }

  lemma ShutdownIsNoWork(cfg: Config, s: State, restart: bool, env: Env)
    requires s.intern.IntShutdown? && Accounted(s) && |s.data.buffer| <= cfg.capacity && cfg.Valid()
    ensures !ContinueShutdown(cfg, s, restart, env).intern.IntWork?
  {
  }

  lemma ReadTellsNothing(cfg: Config, s: State, error: Error, bytes: seq<Byte>, env: Env)
    requires Inv(cfg, s) && Enabled(s, ReadDone(error, bytes), env)
    ensures var r := HandleRead(cfg, s, error, bytes, env); r.intern.IntWork? ==> r.mail == s.mail
  {
    hide Echo, Timing, ContinueShutdown;
    if Alive(s) && !CancelError(s.clock, env.cancel).Failed() && (!error.Failed() || error.Eof?) {
      var s3 := ReadRegistered(s, env).(data := Take(s.data, bytes));
      var s4 := if error.Eof? then s3.(read := Halted, intern := IntShutdown) else s3;
      if s4.intern.IntShutdown? {
        ShutdownIsNoWork(cfg, if s.intern.IntWork? && s4.extern.ExtWork? then s4.(mail := CompleteExternWait(s4.mail, Eof))
                              else s4, true, env);
      }
    }
  }

  lemma WriteTellsNothing(cfg: Config, s: State, error: Error, count: nat, env: Env)
    requires Inv(cfg, s) && Enabled(s, WriteDone(error, count), env)
    ensures var r := HandleWrite(cfg, s, error, count, env); r.intern.IntWork? ==> r.mail == s.mail
  {
    hide Echo, Timing, ContinueShutdown;
    if s.intern.IntShutdown? && !error.Failed() {
      ShutdownIsNoWork(cfg, WriteRegistered(s, env).(data := Give(s.data, count)), true, env);
    }
  }

  lemma WorkTellsNothing(cfg: Config, s: State, event: Event, env: Env)
    requires Inv(cfg, s) && Enabled(s, event, env) && (event.ReadDone? || event.WriteDone? || event.TimerDone?)
    ensures var r := Step(cfg, s, event, env); r.intern.IntWork? ==> r.mail == s.mail
  {
    hide Echo, Timing, HandleRead, HandleWrite;
    match event
    case ReadDone(error, bytes) => ReadTellsNothing(cfg, s, error, bytes, env);
    case WriteDone(error, count) => WriteTellsNothing(cfg, s, error, count, env);
    case TimerDone(_) =>
  }

  lemma ForwardPosts(cfg: Config, s: State, r: State)
    requires Inv(cfg, s) && Inv(cfg, r) && Forward(s.mail, r.mail) && (r.intern.IntWork? ==> r.mail == s.mail)
    requires r.extern == s.extern || (s.extern.ExtStop? && r.extern.ExtStopped?)
    ensures r.mail.posted == s.mail.posted
              + (if s.mail.waitHandler.Some? && !r.intern.IntWork?
                 then [Completion(s.mail.waitHandler.value, r.mail.waitError)] else [])
              + (if s.mail.stopHandler.Some? && r.intern.IntStopped?
                 then [Completion(s.mail.stopHandler.value, Success)] else [])
  {
    hide Echo, Timing, Lent;
  }
}

/** The inactivity timer of a session: raised only after real silence, never by
    a callback left over from a cancelled or rescheduled wait. */
module SessionTimeouts {
  import opened Errors
  import opened CyclicBuffer
  import opened ExternRequests
  import opened SessionSpec
  import opened SessionProofs
  import opened SessionFrames
  import opened SessionRuns

  /** Inactivity is reported exactly by an uncancelled wait, and then the wait
      ran out no earlier than the timeout after the last read or write (or the
      start) completed. */
  lemma TimesOutOnlyAfterSilence(cfg: Config, s: State, event: Event, env: Env)
    requires Inv(cfg, s) && Enabled(s, event, env) && s.started && TimesOut(s, event)
    ensures cfg.timeout.Some? && s.clock.lastActivity + cfg.timeout.value <= env.now
    ensures !Alive(Step(cfg, s, event, env))
    ensures s.extern.ExtWork? && s.intern.IntWork? ==>
              Step(cfg, s, event, env).mail.waitError == InactivityTimeout
  {
  }

  lemma RequestCause(cfg: Config, s: State, event: Event, env: Env)
    requires Inv(cfg, s) && Enabled(s, event, env)
    requires event.Start? || event.Stop? || event.Wait? || event.Reset?
    ensures SameCause(s, Step(cfg, s, event, env))
  {
    match event
    case Start(id, options) =>
      if s.extern.ExtReady? && !options.Failed() {
        WorkSteady(cfg, s.Issue(id).(extern := ExtWork, started := true).Touched(env.now), env);
      }
    case Stop(id) =>
      if s.intern.IntWork? {
        var i := s.Issue(id);
        var s1 := i.(extern := ExtStop, mail := CompleteExternWait(i.mail, OperationAborted));
        StartShutdownSteady(cfg, s1, OperationAborted, false, env);
      }
    case Wait(id) =>
    case Reset =>
  }

  /** Nothing else reports inactivity to the waiting side. */
  lemma OnlyTimeoutsReportInactivity(cfg: Config, s: State, event: Event, env: Env)
    requires Inv(cfg, s) && Enabled(s, event, env)
    requires s.mail.waitError != InactivityTimeout
    requires Step(cfg, s, event, env).mail.waitError == InactivityTimeout
    ensures TimesOut(s, event) && s.started
  {
    match event
    case ReadDone(error, bytes) => ReadFrame(cfg, s, error, bytes, env);
    case WriteDone(error, count) => WriteFrame(cfg, s, error, count, env);
    case TimerDone(error) => TimerFrame(cfg, s, error, env);
    case _ => RequestCause(cfg, s, event, env);
  }

  /** A callback left over from a cancelled or rescheduled wait is not taken for
      inactivity: it re-arms the timer for the silence counted from the last
      operation, and changes nothing else. */
  lemma StaleCallbackRearms(cfg: Config, s: State, error: Error, env: Env)
    requires Inv(cfg, s) && Enabled(s, TimerDone(error), env)
    requires s.started && Alive(s) && s.clock.waitCancelled && (!error.Failed() || error.TimerAborted?)
    ensures cfg.timeout.Some?
    ensures var r := HandleTimer(cfg, s, error, env);
            && r == s.(clock := r.clock)
            && r.clock.timer.InProgress? && !r.clock.waitCancelled
            && r.clock.armedFor == s.clock.lastActivity + cfg.timeout.value
  {
  }

  // ----- over runs

  predicate IsActivity(s: State, event: Event) {
    event.ReadDone? || event.WriteDone? || (event.Start? && s.extern.ExtReady? && !event.options.Failed())
  }

  /** The latest time a run completed a read, a write or a start at, if any. */
  function LatestActivity(cfg: Config, s: State, run: seq<Happening>): Option<int>
    requires Inv(cfg, s) && Runs(cfg, s, run)
    decreases |run|
  {
    if run == [] then None
    else
      StepKeeps(cfg, s, run[0].event, run[0].env);
      var later := LatestActivity(cfg, Step(cfg, s, run[0].event, run[0].env), run[1..]);
      if later.Some? then later
      else if IsActivity(s, run[0].event) then Some(run[0].env.now)
      else None
  }

  lemma ActivityStep(cfg: Config, s: State, event: Event, env: Env)
    requires Inv(cfg, s) && Enabled(s, event, env) && !event.Reset?
    requires Alive(Step(cfg, s, event, env))
    ensures Alive(s)
    ensures Step(cfg, s, event, env).clock.lastActivity
         == if IsActivity(s, event) then env.now else s.clock.lastActivity
  {
    match event
    case ReadDone(error, bytes) => ReadFrame(cfg, s, error, bytes, env);
    case WriteDone(error, count) => WriteFrame(cfg, s, error, count, env);
    case TimerDone(error) => TimerFrame(cfg, s, error, env);
    case Stop(id) =>
      if s.intern.IntWork? {
        var i := s.Issue(id);
        var s1 := i.(extern := ExtStop, mail := CompleteExternWait(i.mail, OperationAborted));
        StartShutdownSteady(cfg, s1, OperationAborted, false, env);
      }
    case _ =>
  }

  lemma {:induction false} ActivityOverRun(cfg: Config, s: State, run: seq<Happening>)
    requires Inv(cfg, s) && Runs(cfg, s, run) && NoReset(run)
    requires Alive(After(cfg, s, run))
    ensures Alive(s)
    ensures var latest := LatestActivity(cfg, s, run);
            After(cfg, s, run).clock.lastActivity
              == if latest.Some? then latest.value else s.clock.lastActivity
    decreases |run|
  {
    if run != [] {
      assert run[0] in run;
      StepKeeps(cfg, s, run[0].event, run[0].env);
      ActivityOverRun(cfg, Step(cfg, s, run[0].event, run[0].env), run[1..]);
      ActivityStep(cfg, s, run[0].event, run[0].env);
    }
  }

  /** In every run: when a step reports inactivity, a read, a write or the start
      completed in that life of the session, and the latest one did so at least
      the configured timeout before. */
  lemma InactivityMeansSilence(cfg: Config, s: State, run: seq<Happening>, event: Event, env: Env)
    requires Inv(cfg, s) && s.extern.ExtReady? && Runs(cfg, s, run) && NoReset(run)
    requires Enabled(After(cfg, s, run), event, env)
    requires After(cfg, s, run).mail.waitError != InactivityTimeout
    requires Step(cfg, After(cfg, s, run), event, env).mail.waitError == InactivityTimeout
    ensures cfg.timeout.Some? && LatestActivity(cfg, s, run).Some?
    ensures LatestActivity(cfg, s, run).value + cfg.timeout.value <= env.now
  {
    var r := After(cfg, s, run);
    OnlyTimeoutsReportInactivity(cfg, r, event, env);
    TimesOutOnlyAfterSilence(cfg, r, event, env);
    ActivityOverRun(cfg, s, run);
    StartedByActivity(cfg, s, run);
  }

  /** A session gets started only by a start that succeeds. */
  lemma {:induction false} StartedByActivity(cfg: Config, s: State, run: seq<Happening>)
    requires Inv(cfg, s) && Runs(cfg, s, run) && NoReset(run)
    requires !s.started && After(cfg, s, run).started
    ensures LatestActivity(cfg, s, run).Some?
    decreases |run|
  {
    assert run[0] in run;
    StepKeeps(cfg, s, run[0].event, run[0].env);
    var r := Step(cfg, s, run[0].event, run[0].env);
    if !r.started {
      StartedByActivity(cfg, r, run[1..]);
    } else {
      StartedStep(cfg, s, run[0].event, run[0].env);
    }
  }

  lemma StartedStep(cfg: Config, s: State, event: Event, env: Env)
    requires Inv(cfg, s) && Enabled(s, event, env)
    requires !s.started && Step(cfg, s, event, env).started
    ensures IsActivity(s, event)
  {
  }

  // ----- aborted waits

  /** A wait that is marked as cancelled was in fact cancelled or rescheduled, so
      that its callback comes at once. */
  predicate Abortable(s: State) { s.clock.timer.InProgress? && s.clock.waitCancelled ==> s.clock.aborted }

  /** What a step that may stop the session does to the wait in flight. */
  predicate Aborts(s: State, r: State, env: Env) {
    Abortable(s) ==>
      Abortable(r) && (Alive(s) && !Alive(r) && r.clock.timer.InProgress? && !env.stopCancel.Failed() ==> r.clock.aborted)
  }

  lemma StopAborts(s: State, error: Error, env: Env)
    requires Alive(s) && Accounted(s)
    ensures Aborts(s, StartStop(s, error, env), env)
  {
  }

  lemma ArmAborts(cfg: Config, s: State, env: Env)
    requires Alive(s) && Accounted(s)
    ensures Aborts(s, ContinueTimerWait(cfg, s, env), env)
  {
    hide StartStop;
    StopAborts(s, env.expires, env);
  }

  lemma WorkAborts(cfg: Config, s: State, env: Env)
    requires s.intern.IntWork? && !s.write.Halted? && !s.clock.timer.Halted?
    requires Accounted(s) && |s.data.buffer| <= cfg.capacity
    ensures Aborts(s, ContinueWork(cfg, s, env), env)
  {
    hide ContinueTimerWait;
    ArmAborts(cfg, WriteTried(cfg, ReadTried(cfg, s)), env);
  }

  lemma ShutdownAborts(cfg: Config, s: State, restart: bool, env: Env)
    requires s.intern.IntShutdown?
    requires Accounted(s) && |s.data.buffer| <= cfg.capacity && cfg.Valid()
    ensures Aborts(s, ContinueShutdown(cfg, s, restart, env), env)
  {
    hide ContinueTimerWait;
    var s1 := if s.write.Idle? then s.(write := Halted, data := s.data.(halfClose := ClosedEarly)) else s;
    if s.read.Idle? {
      ArmAborts(cfg, ReadRestarted(cfg, s1), env);
    } else if s.read.InProgress? {
      ArmAborts(cfg, s1, env);
    } else if s.write.Idle? && Min(|s.data.buffer|, cfg.maxTransfer) > 0 {
      ArmAborts(cfg, StartWrite(s, Min(|s.data.buffer|, cfg.maxTransfer)), env);
    } else {
      ArmAborts(cfg, s, env);
    }
  }

  lemma ReadAborts(cfg: Config, s: State, error: Error, bytes: seq<Byte>, env: Env)
    requires Inv(cfg, s) && Enabled(s, ReadDone(error, bytes), env)
    ensures Aborts(s, HandleRead(cfg, s, error, bytes, env), env)
  {
    hide ContinueWork, ContinueShutdown, StartStop, Echo, Timing;
    var s2 := ReadRegistered(s, env);
    if Alive(s) && (CancelError(s.clock, env.cancel).Failed() || (error.Failed() && !error.Eof?)) {
      StopAborts(s2.(read := Halted), CancelError(s.clock, env.cancel), env);
      StopAborts(s2.(read := Halted), error, env);
    } else if s.intern.IntWork? && !error.Failed() {
      WorkAborts(cfg, s2.(data := Take(s2.data, bytes)), env);
    } else if Alive(s) {
      var s4 := s2.(data := Take(s2.data, bytes), intern := IntShutdown, read := if error.Eof? then Halted else Idle);
      ShutdownAborts(cfg, if s.intern.IntWork? && s.extern.ExtWork? then s4.(mail := CompleteExternWait(s4.mail, error)) else s4,
                     true, env);
    }
  }

  lemma WriteAborts(cfg: Config, s: State, error: Error, count: nat, env: Env)
    requires Inv(cfg, s) && Enabled(s, WriteDone(error, count), env)
    ensures Aborts(s, HandleWrite(cfg, s, error, count, env), env)
  {
    hide ContinueWork, ContinueShutdown, StartStop, Echo, Timing;
    var s2 := WriteRegistered(s, env);
    if Alive(s) && (CancelError(s.clock, env.cancel).Failed() || error.Failed()) {
      StopAborts(s2.(write := Halted), CancelError(s.clock, env.cancel), env);
      StopAborts(s2.(write := Halted), error, env);
    } else if s.intern.IntWork? {
      WorkAborts(cfg, s2.(data := Give(s2.data, count)), env);
    } else if s.intern.IntShutdown? {
      ShutdownAborts(cfg, s2.(data := Give(s2.data, count)), true, env);
    }
  }

  /** Stopping cancels the wait that is in flight, unless that fails: the last
      operation of a stop does not wait for the timeout to run out. */
  lemma StopCancelsWait(cfg: Config, s: State, event: Event, env: Env)
    requires Inv(cfg, s) && Enabled(s, event, env) && Abortable(s)
    ensures var r := Step(cfg, s, event, env);
            Abortable(r) && (Alive(s) && !Alive(r) && r.clock.timer.InProgress? && !env.stopCancel.Failed() ==> r.clock.aborted)
  {
    hide Echo, Timing, Lent, Parked;
    if event.ReadDone? {
      ReadAborts(cfg, s, event.error, event.bytes, env);
    } else if event.WriteDone? {
      WriteAborts(cfg, s, event.error, event.count, env);
    }
  }

  lemma {:induction false} AbortableOverRun(cfg: Config, s: State, run: seq<Happening>)
    requires Inv(cfg, s) && Runs(cfg, s, run) && Abortable(s)
    ensures Abortable(After(cfg, s, run))
    decreases |run|
  {
    hide Step, Enabled;
    if run != [] {
      StepKeeps(cfg, s, run[0].event, run[0].env);
      StopCancelsWait(cfg, s, run[0].event, run[0].env);
      AbortableOverRun(cfg, Step(cfg, s, run[0].event, run[0].env), run[1..]);
    }
  }
}

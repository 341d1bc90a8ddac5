/** What a step of a session leaves alone: the common part of the arguments
    about whole runs. */
module SessionFrames {
  import opened Errors
  import opened CyclicBuffer
  import opened ExternRequests
  import opened SessionSpec
  import opened SessionProofs

  /** What continuing and stopping leave alone. */
  predicate Steady(s: State, r: State) {
    && r.data.received == s.data.received && r.data.written == s.data.written
    && r.clock.lastActivity == s.clock.lastActivity && r.started == s.started
    && (s.read.Halted? ==> r.read.Halted?) && (s.write.Halted? ==> r.write.Halted?)
    && (Alive(r) ==> Alive(s))
    && (r.data.halfClose.ClosedAfterEof? ==>
          s.data.halfClose.ClosedAfterEof? || (s.read.Halted? && !s.write.Halted?))
    && Forward(s.mail, r.mail)
    && (r.extern == s.extern || (s.extern.ExtStop? && r.extern.ExtStopped?))
  }

  /** Inactivity is not the cause recorded between the two states. */
  predicate SameCause(s: State, r: State) {
    r.mail.waitError.InactivityTimeout? ==> s.mail.waitError.InactivityTimeout?
  }

  lemma StopSteady(s: State, error: Error, env: Env)
    requires Alive(s) && Accounted(s) && env.Valid()
    ensures Steady(s, StartStop(s, error, env))
    ensures error != InactivityTimeout ==> SameCause(s, StartStop(s, error, env))
  {
  }

  lemma ArmSteady(cfg: Config, s: State, env: Env)
    requires Alive(s) && Accounted(s) && env.Valid()
    ensures Steady(s, ContinueTimerWait(cfg, s, env)) && SameCause(s, ContinueTimerWait(cfg, s, env))
  {
    StopSteady(s, env.expires, env);
  }

  lemma WorkSteady(cfg: Config, s: State, env: Env)
    requires s.intern.IntWork? && !s.write.Halted? && !s.clock.timer.Halted?
    requires Accounted(s) && |s.data.buffer| <= cfg.capacity && env.Valid()
    ensures Steady(s, ContinueWork(cfg, s, env)) && SameCause(s, ContinueWork(cfg, s, env))
  {
    var s1 := ReadTried(cfg, s);
    var s2 := WriteTried(cfg, s1);
    ArmSteady(cfg, s2, env);
  }

  lemma ShutdownAtReadWaitSteady(cfg: Config, s: State, restart: bool, env: Env)
    requires s.intern.IntShutdown? && s.read.Idle?
    requires Accounted(s) && |s.data.buffer| <= cfg.capacity && cfg.Valid() && env.Valid()
    ensures var r := ContinueShutdownAtReadWait(cfg, s, restart, env); Steady(s, r) && SameCause(s, r)
  {
    if s.write.Idle? && env.shutdown.Failed() {
      StopSteady(s, env.shutdown, env);
    } else if restart {
      var s1 := if s.write.Idle? then s.(write := Halted, data := s.data.(halfClose := ClosedEarly)) else s;
      var s2 := ReadRestarted(cfg, s1);
      ArmSteady(cfg, s2, env);
    }
  }

  lemma ShutdownAtReadInProgressSteady(cfg: Config, s: State, restart: bool, env: Env)
    requires s.intern.IntShutdown? && s.read.InProgress? && Accounted(s) && env.Valid()
    ensures var r := ContinueShutdownAtReadInProgress(cfg, s, restart, env); Steady(s, r) && SameCause(s, r)
  {
    if s.write.Idle? && env.shutdown.Failed() {
      StopSteady(s, env.shutdown, env);
    } else if restart {
      var s1 := if s.write.Idle? then s.(write := Halted, data := s.data.(halfClose := ClosedEarly)) else s;
      ArmSteady(cfg, s1, env);
    }
  }

  lemma ShutdownAtReadStoppedSteady(cfg: Config, s: State, restart: bool, env: Env)
    requires s.intern.IntShutdown? && s.read.Halted? && Accounted(s) && env.Valid()
    ensures var r := ContinueShutdownAtReadStopped(cfg, s, restart, env); Steady(s, r) && SameCause(s, r)
  {
    var filled := Min(|s.data.buffer|, cfg.maxTransfer);
    var s1 :=
      if !s.write.Idle? then s
      else if filled > 0 then StartWrite(s, filled)
      else s.(write := Halted, data := s.data.(halfClose := ClosedAfterEof));
    if s1.write.Halted? {
      StopSteady(s1, Success, env);
    } else if restart {
      ArmSteady(cfg, s1, env);
    }
  }

  lemma ShutdownSteady(cfg: Config, s: State, restart: bool, env: Env)
    requires s.intern.IntShutdown?
    requires Accounted(s) && |s.data.buffer| <= cfg.capacity && cfg.Valid() && env.Valid()
    ensures var r := ContinueShutdown(cfg, s, restart, env); Steady(s, r) && SameCause(s, r)
  {
    match s.read
    case Idle => ShutdownAtReadWaitSteady(cfg, s, restart, env);
    case InProgress => ShutdownAtReadInProgressSteady(cfg, s, restart, env);
    case Halted => ShutdownAtReadStoppedSteady(cfg, s, restart, env);
  }

  lemma StartShutdownSteady(cfg: Config, s: State, error: Error, restart: bool, env: Env)
    requires s.intern.IntWork? && error.Failed()
    requires Accounted(s) && |s.data.buffer| <= cfg.capacity && cfg.Valid() && env.Valid()
    ensures var r := StartShutdown(cfg, s, error, restart, env);
            Steady(s, r) && (error != InactivityTimeout ==> SameCause(s, r))
  {
    hide ContinueShutdown;
    var s1 := s.(intern := IntShutdown);
    if s.extern.ExtWork? {
      CompleteWaitForward(s.mail, error);
      var s2 := s1.(mail := CompleteExternWait(s.mail, error));
      assert Steady(s, s2) && (error != InactivityTimeout ==> SameCause(s, s2));
      ShutdownSteady(cfg, s2, restart, env);
    } else {
      ShutdownSteady(cfg, s1, restart, env);
    }
  }

  // ----- whole handlers

  predicate Accepts(s: State, error: Error, env: Env) {
    Alive(s) && !error.Failed() && !CancelError(s.clock, env.cancel).Failed()
  }

  /** The state a completed read leaves for the work that continues after it. */
  function AfterRead(s: State, error: Error, bytes: seq<Byte>, now: int): State {
    s.(data := Take(s.data, bytes), read := if error.Eof? then Halted else Idle).Touched(now)
  }

  lemma ReadFrame(cfg: Config, s: State, error: Error, bytes: seq<Byte>, env: Env)
    requires Inv(cfg, s) && Enabled(s, ReadDone(error, bytes), env)
    ensures var r := HandleRead(cfg, s, error, bytes, env);
            && SameCause(s, r)
            && (Accepts(s, if error.Eof? then Success else error, env) ==>
                  Steady(AfterRead(s, error, bytes, env.now), r))
            && (!Accepts(s, if error.Eof? then Success else error, env) ==>
                  !Alive(r) && Steady(s.(read := Halted).Touched(r.clock.lastActivity), r))
  {
    if Alive(s) {
      var timerError := CancelError(s.clock, env.cancel);
      var s2 := ReadRegistered(s, env);
      if timerError.Failed() {
        FatalFrame(s, s2.(read := Halted), timerError, env);
      } else if error.Failed() && !error.Eof? {
        FatalFrame(s, s2.(read := Halted), error, env);
      } else {
        ReadFrameOk(cfg, s, s2.(data := Take(s2.data, bytes)), error, bytes, env);
      }
    }
  }

  lemma FatalFrame(s: State, h: State, error: Error, env: Env)
    requires Alive(s) && Accounted(h) && env.Valid() && error != InactivityTimeout && error.Failed()
    requires h == s.(pending := h.pending, read := h.read, write := h.write, clock := h.clock)
    ensures var r := StartStop(h, error, env);
            !Alive(r) && SameCause(s, r)
            && Steady(s.(read := h.read, write := h.write).Touched(r.clock.lastActivity), r)
  {
    StopSteady(h, error, env);
  }

  lemma ReadFrameOk(cfg: Config, s: State, s3: State, error: Error, bytes: seq<Byte>, env: Env)
    requires Alive(s3) && s3.intern == s.intern && s3.extern == s.extern && s3.mail == s.mail && s3.started == s.started
    requires s3.read.Idle? && s3.write == s.write && s3.data == Take(s.data, bytes)
    requires s3.clock.lastActivity == env.now
    requires !error.Failed() || error.Eof?
    requires s.intern.IntWork? ==> !s3.write.Halted? && !s3.clock.timer.Halted?
    requires Accounted(s3) && |s3.data.buffer| <= cfg.capacity && cfg.Valid() && env.Valid()
    ensures var s4 := if error.Eof? then s3.(read := Halted) else s3;
            var r := if s.intern.IntShutdown? then ContinueShutdown(cfg, s4, true, env)
                     else if error.Eof? then StartShutdown(cfg, s4, error, true, env)
                     else ContinueWork(cfg, s3, env);
            SameCause(s, r) && Steady(AfterRead(s, error, bytes, env.now), r)
  {
    var s4 := if error.Eof? then s3.(read := Halted) else s3;
    if s.intern.IntShutdown? {
      ShutdownSteady(cfg, s4, true, env);
    } else if error.Eof? {
      StartShutdownSteady(cfg, s4, error, true, env);
    } else {
      WorkSteady(cfg, s3, env);
    }
  }

  lemma WriteFrame(cfg: Config, s: State, error: Error, count: nat, env: Env)
    requires Inv(cfg, s) && Enabled(s, WriteDone(error, count), env)
    ensures var r := HandleWrite(cfg, s, error, count, env);
            && SameCause(s, r)
            && (Accepts(s, error, env) ==>
                  Steady(s.(data := Give(s.data, count), write := Idle).Touched(env.now), r))
            && (!Accepts(s, error, env) ==>
                  !Alive(r) && Steady(s.(write := Halted).Touched(r.clock.lastActivity), r))
  {
    if Alive(s) {
      var timerError := CancelError(s.clock, env.cancel);
      var s2 := WriteRegistered(s, env);
      if timerError.Failed() {
        FatalFrame(s, s2.(write := Halted), timerError, env);
      } else if error.Failed() {
        FatalFrame(s, s2.(write := Halted), error, env);
      } else if s.intern.IntShutdown? {
        ShutdownSteady(cfg, s2.(data := Give(s2.data, count)), true, env);
      } else {
        WorkSteady(cfg, s2.(data := Give(s2.data, count)), env);
      }
    }
  }

  lemma TimerFrame(cfg: Config, s: State, error: Error, env: Env)
    requires Inv(cfg, s) && Enabled(s, TimerDone(error), env)
    ensures var r := HandleTimer(cfg, s, error, env);
            Steady(s, r) && (TimesOut(s, TimerDone(error)) || SameCause(s, r))
  {
    if Alive(s) {
      var s1 := s.(pending := s.pending - 1).WithTimer(Halted);
      StopSteady(s1, error, env);
      StopSteady(s1, InactivityTimeout, env);
    }
  }

  /** The steps that report inactivity. */
  predicate TimesOut(s: State, event: Event) {
    event.TimerDone? && Alive(s) && !s.clock.waitCancelled
    && (!event.error.Failed() || event.error.TimerAborted?)
  }
}

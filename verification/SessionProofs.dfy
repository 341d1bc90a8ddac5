/** What every step of a session keeps. */
module SessionProofs {
  import opened Errors
  import opened CyclicBuffer
  import opened ExternRequests
  import opened SessionSpec

  predicate Alive(s: State) { s.intern.IntWork? || s.intern.IntShutdown? }

  /** The activities fit the internal state.  In work an idle read means that
      the buffer is full and an idle write that it is empty, so the session
      never stalls. */
  predicate Shape(cfg: Config, s: State) {
    && (s.intern.IntWork? && s.started ==>
          (s.read.Idle? ==> |s.data.buffer| == cfg.capacity) && (s.write.Idle? ==> s.data.buffer == []))
    && (s.intern.IntShutdown? ==>
          && !s.write.Idle?
          && (s.read.Idle? ==> s.write.InProgress? && |s.data.buffer| == cfg.capacity)
          && (s.read.Halted? ==> s.write.InProgress?))
  }

  predicate Control(cfg: Config, s: State) {
    && Ready(cfg, s)
    && (s.extern.ExtReady? ==>
          && s.read.Idle? && s.write.Idle? && s.clock.timer.Idle? && !s.clock.turned
          && s.data.buffer == [] && !s.started)
    && (s.extern.ExtWork? ==> s.started)
    && (s.extern.ExtStop? ==> s.intern.IntShutdown? || s.intern.IntStop?)
    && (s.extern.ExtStopped? ==> s.intern.IntStopped?)
    && (s.intern.IntShutdown? ==> !s.clock.timer.Halted?)
    && (s.intern.IntStop? ==> s.pending > 0)
    && (cfg.timeout.None? ==> !s.clock.timer.InProgress?)
  }

  /** What was written is what was read, in order; nothing is lost unless
      buffered bytes were thrown away after the sending half was closed early. */
  predicate Echo(s: State) {
    var d := s.data;
    && d.written <= d.received
    && (!d.discarded ==> d.received == d.written + d.buffer)
    && (d.discarded ==> s.write.Halted?)
    && (d.halfClose.ClosedAfterEof? ==> !Alive(s) && d.written == d.received)
  }

  /** The flags of the timer tell which wait is in flight. */
  predicate Timing(cfg: Config, s: State) {
    var c := s.clock;
    Alive(s) ==>
      && (c.turned ==> cfg.timeout.Some? && c.deadline == c.lastActivity + cfg.timeout.value)
      && (c.timer.InProgress? && !c.waitCancelled ==> c.turned && c.armedFor == c.deadline)
      && (c.aborted && c.timer.InProgress? ==> c.waitCancelled)
  }

  predicate Armed(cfg: Config, s: State) {
    Alive(s) && s.started && cfg.timeout.Some? ==> s.clock.turned && s.clock.timer.InProgress?
  }

  predicate Parked(s: State) {
    && (s.mail.waitHandler.Some? ==> s.extern.ExtWork? && s.intern.IntWork?)
    && (s.mail.stopHandler.Some? ==> s.extern.ExtStop?)
    && (s.extern.ExtWork? ==> (s.mail.waitError.Failed() <==> !s.intern.IntWork?))
    && (s.extern.ExtReady? ==> !s.mail.waitError.Failed())
  }

  /** The invariant while a stop request that may park itself is being served. */
  predicate Core(cfg: Config, s: State) {
    Control(cfg, s) && Shape(cfg, s) && Lent(cfg, s) && Echo(s) && Timing(cfg, s) && Armed(cfg, s)
    && Parked(s)
  }

  predicate Inv(cfg: Config, s: State) {
    Core(cfg, s) && (s.extern.ExtStop? ==> s.mail.stopHandler.Some?)
  }

  lemma InitialInv(cfg: Config)
    requires cfg.Valid()
    ensures Inv(cfg, Initial())
  {
    var s := Initial();
    assert Ready(cfg, s);
    assert Control(cfg, s) && Shape(cfg, s);
    assert Lent(cfg, s) && Timing(cfg, s) && Armed(cfg, s);
    assert Echo(s);
  }

  // ----- inside a step

  /** Holds of a running session at any point inside a step. */
  predicate Mid(cfg: Config, s: State) {
    && cfg.Valid() && Accounted(s) && |s.data.buffer| <= cfg.capacity
    && Alive(s) && (s.extern.ExtWork? || s.extern.ExtStop?)
    && (s.extern.ExtWork? ==> s.started)
    && (cfg.timeout.None? ==> !s.clock.timer.InProgress?)
    && Lent(cfg, s) && Echo(s) && Parked(s)
  }

  /** A parked stop handler stays parked unless the stop has ended. */
  predicate SameStop(s: State, r: State) {
    r.extern.ExtStop? ==> s.extern.ExtStop? && r.mail.stopHandler == s.mail.stopHandler
  }

  lemma StopKeeps(cfg: Config, s: State, error: Error, env: Env)
    requires Mid(cfg, s)
    requires s.extern.ExtWork? && !s.mail.waitError.Failed() ==> error.Failed()
    ensures Core(cfg, StartStop(s, error, env))
    ensures !Alive(StartStop(s, error, env)) && SameStop(s, StartStop(s, error, env))
  {
  }

  /** Where the timer stands before it is restarted: just after an operation. */
  predicate Restartable(cfg: Config, s: State, env: Env) {
    && Timing(cfg, s) && !s.clock.timer.Halted?
    && (s.clock.turned ==> s.clock.timer.InProgress?)
    && (s.clock.turned || s.clock.lastActivity == env.now)
  }

  lemma ArmKeeps(cfg: Config, s: State, env: Env)
    requires Mid(cfg, s) && Restartable(cfg, s, env) && Shape(cfg, s)
    requires s.intern.IntWork? ==> s.extern.ExtWork? && !s.read.Halted? && !s.write.Halted?
    ensures var r := ContinueTimerWait(cfg, s, env); Core(cfg, r) && SameStop(s, r)
  {
    if cfg.timeout.Some? && !s.clock.turned && env.expires.Failed() {
      StopKeeps(cfg, s, env.expires, env);
    }
  }

  lemma WorkKeeps(cfg: Config, s: State, env: Env)
    requires Mid(cfg, s) && Restartable(cfg, s, env)
    requires s.intern.IntWork? && s.extern.ExtWork? && !s.read.Halted? && !s.write.Halted?
    ensures var r := ContinueWork(cfg, s, env); Core(cfg, r) && SameStop(s, r)
  {
    var s1 := ReadTried(cfg, s);
    assert Mid(cfg, s1) && Restartable(cfg, s1, env);
    var s2 := WriteTried(cfg, s1);
    assert Mid(cfg, s2) && Restartable(cfg, s2, env);
    ArmKeeps(cfg, s2, env);
  }

  /** Shutting down with the timer restarted, or left alone for a session whose
      timer runs already or that was never started. */
  predicate MayContinue(cfg: Config, s: State, restart: bool, env: Env) {
    && Mid(cfg, s) && s.intern.IntShutdown? && !s.clock.timer.Halted?
    && (if restart then Restartable(cfg, s, env) else Timing(cfg, s) && Armed(cfg, s))
  }

  lemma ShutdownEnds(cfg: Config, s: State, restart: bool, env: Env)
    requires MayContinue(cfg, s, restart, env) && Shape(cfg, s)
    ensures var r := if restart then ContinueTimerWait(cfg, s, env) else s; Core(cfg, r) && SameStop(s, r)
  {
    if restart {
      ArmKeeps(cfg, s, env);
    }
  }

  lemma ShutdownAtReadWaitKeeps(cfg: Config, s: State, restart: bool, env: Env)
    requires MayContinue(cfg, s, restart, env) && s.read.Idle?
    ensures var r := ContinueShutdownAtReadWait(cfg, s, restart, env); Core(cfg, r) && SameStop(s, r)
  {
    if s.write.Idle? && env.shutdown.Failed() {
      StopKeeps(cfg, s, env.shutdown, env);
    } else {
      var s1 := if s.write.Idle? then s.(write := Halted, data := s.data.(halfClose := ClosedEarly)) else s;
      assert MayContinue(cfg, s1, restart, env);
      var s2 := ReadRestarted(cfg, s1);
      assert MayContinue(cfg, s2, restart, env);
      ShutdownEnds(cfg, s2, restart, env);
    }
  }

  lemma ShutdownAtReadInProgressKeeps(cfg: Config, s: State, restart: bool, env: Env)
    requires MayContinue(cfg, s, restart, env) && s.read.InProgress?
    ensures var r := ContinueShutdownAtReadInProgress(cfg, s, restart, env); Core(cfg, r) && SameStop(s, r)
  {
    if s.write.Idle? && env.shutdown.Failed() {
      StopKeeps(cfg, s, env.shutdown, env);
    } else {
      var s1 := if s.write.Idle? then s.(write := Halted, data := s.data.(halfClose := ClosedEarly)) else s;
      assert MayContinue(cfg, s1, restart, env);
      ShutdownEnds(cfg, s1, restart, env);
    }
  }

  /** Closing the sending half after the end of the peer's stream: everything
      that was read has been written. */
  lemma LastByteEchoed(cfg: Config, s: State, env: Env)
    requires Mid(cfg, s) && s.intern.IntShutdown? && s.read.Halted? && s.write.Idle?
    requires s.data.buffer == []
    ensures s.data.written == s.data.received
    ensures var closed := s.(write := Halted, data := s.data.(halfClose := ClosedAfterEof));
            Core(cfg, StartStop(closed, Success, env)) && SameStop(s, StartStop(closed, Success, env))
  {
    var early := s.(write := Halted, data := s.data.(halfClose := ClosedEarly));
    assert Mid(cfg, early);
    StopKeeps(cfg, early, Success, env);
    var closed := s.(write := Halted, data := s.data.(halfClose := ClosedAfterEof));
    assert StartStop(closed, Success, env)
        == StartStop(early, Success, env).(data := closed.data);
  }

  lemma ShutdownAtReadStoppedKeeps(cfg: Config, s: State, restart: bool, env: Env)
    requires MayContinue(cfg, s, restart, env) && s.read.Halted?
    ensures var r := ContinueShutdownAtReadStopped(cfg, s, restart, env); Core(cfg, r) && SameStop(s, r)
  {
    var filled := Min(|s.data.buffer|, cfg.maxTransfer);
    if s.write.Idle? && filled > 0 {
      var s1 := StartWrite(s, filled);
      assert MayContinue(cfg, s1, restart, env);
      ShutdownEnds(cfg, s1, restart, env);
    } else if s.write.Idle? {
      LastByteEchoed(cfg, s, env);
    } else if s.write.Halted? {
      StopKeeps(cfg, s, Success, env);
    } else {
      ShutdownEnds(cfg, s, restart, env);
    }
  }

  lemma ShutdownKeeps(cfg: Config, s: State, restart: bool, env: Env)
    requires MayContinue(cfg, s, restart, env)
    ensures var r := ContinueShutdown(cfg, s, restart, env); Core(cfg, r) && SameStop(s, r)
  {
    match s.read
    case Idle => ShutdownAtReadWaitKeeps(cfg, s, restart, env);
    case InProgress => ShutdownAtReadInProgressKeeps(cfg, s, restart, env);
    case Halted => ShutdownAtReadStoppedKeeps(cfg, s, restart, env);
  }

  // ----- completions

  /** Registering a completed operation: it left its activity idle or halted,
      and the timer was told to cancel. */
  lemma CancelKeeps(cfg: Config, s: State, r: State, env: Env)
    requires Inv(cfg, s) && Alive(s)
    requires r.clock == CancelTimerWait(s.clock.(lastActivity := env.now), env.cancel)
    requires r.intern == s.intern
    ensures !CancelError(s.clock, env.cancel).Failed() ==> Restartable(cfg, r, env)
  {
  }

  lemma ReadAtWorkKeeps(cfg: Config, s: State, error: Error, bytes: seq<Byte>, env: Env)
    requires Inv(cfg, s) && s.intern.IntWork? && Enabled(s, ReadDone(error, bytes), env)
    ensures Inv(cfg, HandleReadAtWork(cfg, s, error, bytes, env))
  {
    var timerError := CancelError(s.clock, env.cancel);
    var s2 := ReadRegistered(s, env);
    CancelKeeps(cfg, s, s2, env);
    if timerError.Failed() {
      StopKeeps(cfg, s2.(read := Halted), timerError, env);
    } else if error.Failed() && !error.Eof? {
      StopKeeps(cfg, s2.(read := Halted), error, env);
    } else {
      var s3 := s2.(data := Take(s2.data, bytes));
      assert Mid(cfg, s3);
      if error.Eof? {
        ShutdownFromEof(cfg, s3.(read := Halted), env);
      } else {
        WorkKeeps(cfg, s3, env);
      }
    }
  }

  lemma ShutdownFromEof(cfg: Config, s: State, env: Env)
    requires Mid(cfg, s) && Restartable(cfg, s, env)
    requires s.intern.IntWork? && s.extern.ExtWork?
    ensures var r := StartShutdown(cfg, s, Eof, true, env); Core(cfg, r) && SameStop(s, r)
  {
    var s2 := s.(intern := IntShutdown, mail := CompleteExternWait(s.mail, Eof));
    assert MayContinue(cfg, s2, true, env);
    ShutdownKeeps(cfg, s2, true, env);
  }

  lemma ReadAtShutdownKeeps(cfg: Config, s: State, error: Error, bytes: seq<Byte>, env: Env)
    requires Inv(cfg, s) && s.intern.IntShutdown? && Enabled(s, ReadDone(error, bytes), env)
    ensures Inv(cfg, HandleReadAtShutdown(cfg, s, error, bytes, env))
  {
    var timerError := CancelError(s.clock, env.cancel);
    var s2 := ReadRegistered(s, env);
    CancelKeeps(cfg, s, s2, env);
    if timerError.Failed() {
      StopKeeps(cfg, s2.(read := Halted), timerError, env);
    } else if error.Failed() && !error.Eof? {
      StopKeeps(cfg, s2.(read := Halted), error, env);
    } else {
      var s3 := s2.(data := Take(s2.data, bytes));
      var s4 := if error.Eof? then s3.(read := Halted) else s3;
      assert MayContinue(cfg, s4, true, env);
      ShutdownKeeps(cfg, s4, true, env);
    }
  }

  lemma GiveKeeps(cfg: Config, d: Data, count: nat)
    requires d.writeLent <= d.buffer && count <= |d.writeLent| && d.received == d.written + d.buffer
    ensures var e := Give(d, count); e.written <= e.received && e.received == e.written + e.buffer
  {
    assert d.writeLent[..count] == d.buffer[..count];
    assert d.buffer == d.buffer[..count] + d.buffer[count..];
  }

  lemma WriteAtWorkKeeps(cfg: Config, s: State, error: Error, count: nat, env: Env)
    requires Inv(cfg, s) && s.intern.IntWork? && Enabled(s, WriteDone(error, count), env)
    ensures Inv(cfg, HandleWriteAtWork(cfg, s, error, count, env))
  {
    var timerError := CancelError(s.clock, env.cancel);
    var s2 := WriteRegistered(s, env);
    CancelKeeps(cfg, s, s2, env);
    if timerError.Failed() {
      StopKeeps(cfg, s2.(write := Halted), timerError, env);
    } else if error.Failed() {
      StopKeeps(cfg, s2.(write := Halted), error, env);
    } else {
      GiveKeeps(cfg, s2.data, count);
      WorkKeeps(cfg, s2.(data := Give(s2.data, count)), env);
    }
  }

  lemma WriteAtShutdownKeeps(cfg: Config, s: State, error: Error, count: nat, env: Env)
    requires Inv(cfg, s) && s.intern.IntShutdown? && Enabled(s, WriteDone(error, count), env)
    ensures Inv(cfg, HandleWriteAtShutdown(cfg, s, error, count, env))
  {
    var timerError := CancelError(s.clock, env.cancel);
    var s2 := WriteRegistered(s, env);
    CancelKeeps(cfg, s, s2, env);
    if timerError.Failed() {
      StopKeeps(cfg, s2.(write := Halted), timerError, env);
    } else if error.Failed() {
      StopKeeps(cfg, s2.(write := Halted), error, env);
    } else {
      GiveKeeps(cfg, s2.data, count);
      var s3 := s2.(data := Give(s2.data, count));
      assert MayContinue(cfg, s3, true, env);
      ShutdownKeeps(cfg, s3, true, env);
    }
  }

  lemma TimerAtWorkKeeps(cfg: Config, s: State, error: Error, env: Env)
    requires Inv(cfg, s) && Alive(s) && Enabled(s, TimerDone(error), env)
    ensures Inv(cfg, HandleTimerAtWork(s, error, env))
  {
    var s1 := s.(pending := s.pending - 1).WithTimer(Idle);
    if error.Failed() && !error.TimerAborted? {
      StopKeeps(cfg, s1.WithTimer(Halted), error, env);
    } else if !s1.clock.waitCancelled {
      StopKeeps(cfg, s1.WithTimer(Halted), InactivityTimeout, env);
    }
  }

  lemma DoneAtStopKeeps(cfg: Config, s: State, event: Event, env: Env)
    requires Inv(cfg, s) && s.intern.IntStop? && Enabled(s, event, env)
    requires event.ReadDone? || event.WriteDone? || event.TimerDone?
    ensures Inv(cfg, Step(cfg, s, event, env))
  {
  }

  // ----- requests

  lemma StartKeeps(cfg: Config, s: State, id: nat, options: Error, env: Env)
    requires Inv(cfg, s)
    ensures Inv(cfg, DoStart(cfg, s, id, options, env))
  {
    if s.extern.ExtReady? && !options.Failed() {
      var s1 := s.(extern := ExtWork, started := true).Touched(env.now);
      assert Mid(cfg, s1) && Restartable(cfg, s1, env);
      WorkKeeps(cfg, s1, env);
    }
  }

  lemma StopRequestKeeps(cfg: Config, s: State, id: nat, env: Env)
    requires Inv(cfg, s)
    ensures Inv(cfg, DoStop(cfg, s, id, env))
  {
    if !s.extern.ExtStopped? && !s.extern.ExtStop? && s.intern.IntWork? {
      var s1 := s.(extern := ExtStop, mail := CompleteExternWait(s.mail, OperationAborted));
      var s2 := s1.(intern := IntShutdown);
      assert MayContinue(cfg, s2, false, env);
      ShutdownKeeps(cfg, s2, false, env);
    }
  }

  lemma WaitKeeps(cfg: Config, s: State, id: nat)
    requires Inv(cfg, s)
    ensures Inv(cfg, DoWait(s, id))
  {
  }

  lemma ResetKeeps(cfg: Config, s: State, env: Env)
    requires Inv(cfg, s) && Enabled(s, Reset, env)
    ensures Inv(cfg, DoReset(s))
    ensures DoReset(s) == Initial().(mail := Initial().mail.(issued := s.mail.issued, posted := s.mail.posted))
  {
  }

  lemma ReadKeeps(cfg: Config, s: State, error: Error, bytes: seq<Byte>, env: Env)
    requires Inv(cfg, s) && Enabled(s, ReadDone(error, bytes), env)
    ensures Inv(cfg, HandleRead(cfg, s, error, bytes, env))
  {
    match s.intern
    case IntWork => ReadAtWorkKeeps(cfg, s, error, bytes, env);
    case IntShutdown => ReadAtShutdownKeeps(cfg, s, error, bytes, env);
    case IntStop => DoneAtStopKeeps(cfg, s, ReadDone(error, bytes), env);
    case IntStopped =>
  }

  lemma WriteKeeps(cfg: Config, s: State, error: Error, count: nat, env: Env)
    requires Inv(cfg, s) && Enabled(s, WriteDone(error, count), env)
    ensures Inv(cfg, HandleWrite(cfg, s, error, count, env))
  {
    match s.intern
    case IntWork => WriteAtWorkKeeps(cfg, s, error, count, env);
    case IntShutdown => WriteAtShutdownKeeps(cfg, s, error, count, env);
    case IntStop => DoneAtStopKeeps(cfg, s, WriteDone(error, count), env);
    case IntStopped =>
  }

  lemma TimerKeeps(cfg: Config, s: State, error: Error, env: Env)
    requires Inv(cfg, s) && Enabled(s, TimerDone(error), env)
    ensures Inv(cfg, HandleTimer(cfg, s, error, env))
  {
    if Alive(s) {
      TimerAtWorkKeeps(cfg, s, error, env);
    } else if s.intern.IntStop? {
      DoneAtStopKeeps(cfg, s, TimerDone(error), env);
    }
  }

  /** Every step of a session keeps the invariant; since a step is defined only
      where the assertions of the handlers hold, no assertion ever fails. */
  lemma StepKeeps(cfg: Config, s: State, event: Event, env: Env)
    requires Inv(cfg, s) && Enabled(s, event, env)
    ensures Inv(cfg, Step(cfg, s, event, env))
  {
    match event
    case Start(id, options) => StartKeeps(cfg, s.Issue(id), id, options, env);
    case Stop(id) => StopRequestKeeps(cfg, s.Issue(id), id, env);
    case Wait(id) => WaitKeeps(cfg, s.Issue(id), id);
    case Reset => ResetKeeps(cfg, s, env);
    case ReadDone(error, bytes) => ReadKeeps(cfg, s, error, bytes, env);
    case WriteDone(error, count) => WriteKeeps(cfg, s, error, count, env);
    case TimerDone(error) => TimerKeeps(cfg, s, error, env);
  }
}

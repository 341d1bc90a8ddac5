/** When a session goes on, when it stops, and what it tells then: stated event by
    event about a whole step, apart from the handlers that bring it about. */
module SessionEnds {
  import opened Errors
  import opened CyclicBuffer
  import opened ExternRequests
  import opened SessionSpec
  import opened SessionProofs
  import opened SessionFrames
  import opened SessionRuns

  // ----- what ends a session's work

  predicate IsIo(event: Event) { event.ReadDone? || event.WriteDone? }

  predicate EndOfStream(event: Event) { event.ReadDone? && event.error.Eof? }

  predicate Starts(s: State, event: Event) { event.Start? && s.extern.ExtReady? && !event.options.Failed() }

  /** The socket options cannot be applied. */
  predicate Refuses(s: State, event: Event) { event.Start? && s.extern.ExtReady? && event.options.Failed() }

  /** A request to stop a session that was not asked before. */
  predicate Stops(s: State, event: Event) { event.Stop? && (s.extern.ExtReady? || s.extern.ExtWork?) }

  /** The timer runs and cannot be cancelled. */
  predicate CancelFails(s: State, env: Env) {
    s.clock.timer.InProgress? && !s.clock.waitCancelled && env.cancel.Failed()
  }

  /** The peer's stream has ended and, with this event, nothing is left to write
      or may be written. */
  predicate Drained(s: State, event: Event) {
    || (EndOfStream(event) && (s.write.Halted? || (s.write.Idle? && s.data.buffer + event.bytes == [])))
    || (event.WriteDone? && !event.error.Failed() && s.read.Halted? && event.count == |s.data.buffer|)
  }

  /** The sending half is closed although the peer's stream goes on. */
  predicate HalfCloses(s: State, event: Event) {
    || (Stops(s, event) && s.intern.IntWork? && s.write.Idle?)
    || (event.WriteDone? && !event.error.Failed() && s.intern.IntShutdown? && !s.read.Halted?)
  }

  /** The timer is set anew. */
  predicate Rearms(cfg: Config, s: State, event: Event) {
    cfg.timeout.Some? && (Starts(s, event) || (IsIo(event) && !Drained(s, event)))
  }

  /** The failure that a live session meets in a step, if it does. */
  function Failure(cfg: Config, s: State, event: Event, env: Env): Option<Error> {
    if IsIo(event) && CancelFails(s, env) then Some(env.cancel)
    else if IsIo(event) && event.error.Failed() && !EndOfStream(event) then Some(event.error)
    else if event.TimerDone? && event.error.Failed() && !event.error.TimerAborted? then Some(event.error)
    else if event.TimerDone? && !s.clock.waitCancelled then Some(InactivityTimeout)
    else if HalfCloses(s, event) && env.shutdown.Failed() then Some(env.shutdown)
    else if Rearms(cfg, s, event) && env.expires.Failed() then Some(env.expires)
    else None
  }

  predicate Faultless(cfg: Config, s: State, event: Event, env: Env) {
    Failure(cfg, s, event, env).None? && !Refuses(s, event)
  }

  // ----- one step

  /** What the waiting side is told: that the session was asked to stop, that the
      peer's stream has ended, or the failure that was met. */
  function Cause(cfg: Config, s: State, event: Event, env: Env): Error {
    if Stops(s, event) then OperationAborted
    else if EndOfStream(event) && !CancelFails(s, env) then Eof
    else match Failure(cfg, s, event, env) case Some(e) => e case None => Success
  }

  /** How the sending half stands after a step: closed after the last byte when
      the peer's stream has ended, closed early when the stream still goes on. */
  function Closing(cfg: Config, s: State, event: Event, env: Env): HalfClose {
    if Faultless(cfg, s, event, env) && Drained(s, event) && !s.write.Halted? then ClosedAfterEof
    else if HalfCloses(s, event) && !(IsIo(event) && CancelFails(s, env)) && !env.shutdown.Failed() then ClosedEarly
    else s.data.halfClose
  }

  /** What a step makes of a live session. */
  predicate Ends(cfg: Config, s: State, event: Event, env: Env, r: State) {
    && (Alive(r) <==> Faultless(cfg, s, event, env) && !Drained(s, event))
    && (s.intern.IntWork? ==>
          (r.intern.IntWork? <==> Faultless(cfg, s, event, env) && !Stops(s, event) && !EndOfStream(event)))
    && (s.intern.IntWork? && !r.intern.IntWork? && !Refuses(s, event) ==>
          r.mail.waitError == Cause(cfg, s, event, env))
    && r.data.halfClose == Closing(cfg, s, event, env)
  }

  lemma FailedReadEnds(cfg: Config, s: State, event: Event, env: Env)
    requires Inv(cfg, s) && Enabled(s, event, env) && s.intern.IntWork? && event.ReadDone? && !EndOfStream(event)
    requires CancelFails(s, env) || event.error.Failed()
    ensures Ends(cfg, s, event, env, Step(cfg, s, event, env))
  {
    hide Echo, Timing, ContinueWork;
  }

  lemma WorkReadEnds(cfg: Config, s: State, event: Event, env: Env)
    requires Inv(cfg, s) && Enabled(s, event, env) && s.intern.IntWork? && event.ReadDone? && !EndOfStream(event)
    requires !CancelFails(s, env) && !event.error.Failed()
    ensures Ends(cfg, s, event, env, Step(cfg, s, event, env))
  {
    hide Echo, Timing;
  }

  lemma WorkEofEnds(cfg: Config, s: State, event: Event, env: Env)
    requires Inv(cfg, s) && Enabled(s, event, env) && s.intern.IntWork? && EndOfStream(event)
    ensures Ends(cfg, s, event, env, Step(cfg, s, event, env))
  {
    hide Echo, Timing;
  }

  lemma FailedWriteEnds(cfg: Config, s: State, event: Event, env: Env)
    requires Inv(cfg, s) && Enabled(s, event, env) && s.intern.IntWork? && event.WriteDone?
    requires CancelFails(s, env) || event.error.Failed()
    ensures Ends(cfg, s, event, env, Step(cfg, s, event, env))
  {
    hide Echo, Timing, ContinueWork;
  }

  lemma WorkWriteEnds(cfg: Config, s: State, event: Event, env: Env)
    requires Inv(cfg, s) && Enabled(s, event, env) && s.intern.IntWork? && event.WriteDone?
    requires !CancelFails(s, env) && !event.error.Failed()
    ensures Ends(cfg, s, event, env, Step(cfg, s, event, env))
  {
    hide Echo, Timing;
  }

  lemma ShutdownReadEnds(cfg: Config, s: State, event: Event, env: Env)
    requires Inv(cfg, s) && Enabled(s, event, env) && s.intern.IntShutdown? && event.ReadDone? && !EndOfStream(event)
    ensures Ends(cfg, s, event, env, Step(cfg, s, event, env))
  {
    hide Echo, Timing;
  }

  lemma ShutdownEofEnds(cfg: Config, s: State, event: Event, env: Env)
    requires Inv(cfg, s) && Enabled(s, event, env) && s.intern.IntShutdown? && EndOfStream(event)
    ensures Ends(cfg, s, event, env, Step(cfg, s, event, env))
  {
    hide Echo, Timing;
  }

  lemma DrainWriteEnds(cfg: Config, s: State, event: Event, env: Env)
    requires Inv(cfg, s) && Enabled(s, event, env) && s.intern.IntShutdown? && s.read.Halted? && event.WriteDone?
    ensures Ends(cfg, s, event, env, Step(cfg, s, event, env))
  {
    hide Echo, Timing;
  }

  lemma ShutdownWriteEnds(cfg: Config, s: State, event: Event, env: Env)
    requires Inv(cfg, s) && Enabled(s, event, env) && s.intern.IntShutdown? && !s.read.Halted? && event.WriteDone?
    ensures Ends(cfg, s, event, env, Step(cfg, s, event, env))
  {
    hide Echo, Timing;
  }

  lemma TimerEnds(cfg: Config, s: State, event: Event, env: Env)
    requires Inv(cfg, s) && Enabled(s, event, env) && Alive(s) && event.TimerDone?
    ensures Ends(cfg, s, event, env, Step(cfg, s, event, env))
  {
    hide Echo, Timing;
  }

  lemma RequestEnds(cfg: Config, s: State, event: Event, env: Env)
    requires Inv(cfg, s) && Enabled(s, event, env) && Alive(s) && (event.Start? || event.Wait?)
    ensures Ends(cfg, s, event, env, Step(cfg, s, event, env))
  {
    hide Echo, Timing;
  }

  lemma StopEnds(cfg: Config, s: State, event: Event, env: Env)
    requires Inv(cfg, s) && Enabled(s, event, env) && Alive(s) && event.Stop?
    ensures Ends(cfg, s, event, env, Step(cfg, s, event, env))
  {
    hide Echo, Timing;
  }

  lemma StepEnds(cfg: Config, s: State, event: Event, env: Env)
    requires Inv(cfg, s) && Enabled(s, event, env) && Alive(s) && !event.Reset?
    ensures Ends(cfg, s, event, env, Step(cfg, s, event, env))
  {
    hide Inv, Step, Ends;
    match event
    case ReadDone(error, _) =>
      if s.intern.IntWork? {
        if error.Eof? {
          WorkEofEnds(cfg, s, event, env);
        } else if CancelFails(s, env) || error.Failed() {
          FailedReadEnds(cfg, s, event, env);
        } else {
          WorkReadEnds(cfg, s, event, env);
        }
      } else if error.Eof? {
        ShutdownEofEnds(cfg, s, event, env);
      } else {
        ShutdownReadEnds(cfg, s, event, env);
      }
    case WriteDone(error, _) =>
      if s.intern.IntWork? && (CancelFails(s, env) || error.Failed()) {
        FailedWriteEnds(cfg, s, event, env);
      } else if s.intern.IntWork? {
        WorkWriteEnds(cfg, s, event, env);
      } else if s.read.Halted? {
        DrainWriteEnds(cfg, s, event, env);
      } else {
        ShutdownWriteEnds(cfg, s, event, env);
      }
    case TimerDone(_) => TimerEnds(cfg, s, event, env);
    case Stop(_) => StopEnds(cfg, s, event, env);
    case _ => RequestEnds(cfg, s, event, env);
  }

  /** A live session stops in a step if and only if it meets a failure, is refused
      its start, or the peer's stream has ended and nothing is left to write. */
  lemma StopsIff(cfg: Config, s: State, event: Event, env: Env)
    requires Inv(cfg, s) && Enabled(s, event, env) && Alive(s) && !event.Reset?
    ensures Alive(Step(cfg, s, event, env)) <==> Faultless(cfg, s, event, env) && !Drained(s, event)
  {
    hide Inv, Step;
    StepEnds(cfg, s, event, env);
  }

  /** A session at work leaves it if and only if it meets a failure, is refused its
      start, is asked to stop, or the peer's stream ends.  In particular no
      successful read or write ends its work. */
  lemma LeavesWorkIff(cfg: Config, s: State, event: Event, env: Env)
    requires Inv(cfg, s) && Enabled(s, event, env) && s.intern.IntWork? && !event.Reset?
    ensures Step(cfg, s, event, env).intern.IntWork?
       <==> Faultless(cfg, s, event, env) && !Stops(s, event) && !EndOfStream(event)
  {
    hide Inv, Step;
    StepEnds(cfg, s, event, env);
  }

  /** When it does, this is what its waiting side is told, now or when it asks. */
  lemma RecordsCause(cfg: Config, s: State, event: Event, env: Env)
    requires Inv(cfg, s) && Enabled(s, event, env) && s.intern.IntWork? && !event.Reset? && !Refuses(s, event)
    requires !Step(cfg, s, event, env).intern.IntWork?
    ensures Step(cfg, s, event, env).mail.waitError == Cause(cfg, s, event, env)
    ensures Cause(cfg, s, event, env).Failed()
  {
    hide Inv, Step;
    StepEnds(cfg, s, event, env);
    LeavesWorkIff(cfg, s, event, env);
  }

  // ----- whole runs

  /** No step of the run fails, refuses the start, or asks to stop. */
  predicate Peaceful(cfg: Config, s: State, run: seq<Happening>)
    requires Inv(cfg, s) && Runs(cfg, s, run)
    decreases |run|
  {
    run == [] ||
      var event, env := run[0].event, run[0].env;
      && (Alive(s) ==> Faultless(cfg, s, event, env) && !Stops(s, event))
      && (StepKeeps(cfg, s, event, env);
          Peaceful(cfg, Step(cfg, s, event, env), run[1..]))
  }

  /** Nobody asked the session to stop: it is at work while the peer's stream goes
      on, then writes what is left, and closes the sending half after that. */
  predicate Unstopped(s: State) {
    && (s.intern.IntShutdown? ==> s.read.Halted?)
    && s.data.halfClose == if Alive(s) then NotClosed else ClosedAfterEof
  }

  lemma ReadStaysHalted(cfg: Config, s: State, event: Event, env: Env)
    requires Inv(cfg, s) && Enabled(s, event, env) && Unstopped(s) && !event.Reset? && !Stops(s, event)
    requires Faultless(cfg, s, event, env) && Alive(s)
    ensures var r := Step(cfg, s, event, env); r.intern.IntShutdown? ==> r.read.Halted?
  {
    hide Echo, Timing, Lent;
    if s.intern.IntWork? {
      LeavesWorkIff(cfg, s, event, env);
    }
    match event
    case ReadDone(error, bytes) => ReadFrame(cfg, s, error, bytes, env);
    case WriteDone(error, count) => WriteFrame(cfg, s, error, count, env);
    case TimerDone(error) => TimerFrame(cfg, s, error, env);
    case _ =>
  }

  /** A stop goes on and leaves the sending half as it is. */
  lemma StoppedStays(cfg: Config, s: State, event: Event, env: Env)
    requires Inv(cfg, s) && Enabled(s, event, env) && !Alive(s) && !event.Reset?
    ensures var r := Step(cfg, s, event, env); !Alive(r) && r.data == s.data
  {
    hide Echo, Timing, Lent;
  }

  lemma PeacefulStep(cfg: Config, s: State, event: Event, env: Env)
    requires Inv(cfg, s) && Enabled(s, event, env) && Unstopped(s) && !event.Reset?
    requires Alive(s) ==> Faultless(cfg, s, event, env) && !Stops(s, event)
    ensures Unstopped(Step(cfg, s, event, env))
  {
    hide Step, Inv;
    if Alive(s) {
      StepEnds(cfg, s, event, env);
      ReadStaysHalted(cfg, s, event, env);
      NeverHalfClosed(cfg, s, event);
    } else {
      StoppedStays(cfg, s, event, env);
    }
  }

  lemma NeverHalfClosed(cfg: Config, s: State, event: Event)
    requires Inv(cfg, s) && Unstopped(s) && Alive(s) && !Stops(s, event)
    ensures !HalfCloses(s, event) && !s.write.Halted?
  {
    hide Echo, Timing, Lent;
  }

  lemma {:induction false} PeacefulRun(cfg: Config, s: State, run: seq<Happening>)
    requires Inv(cfg, s) && Runs(cfg, s, run) && NoReset(run) && Unstopped(s) && Peaceful(cfg, s, run)
    ensures Unstopped(After(cfg, s, run))
    decreases |run|
  {
    hide Step, Unstopped, Echo, Timing;
    if run != [] {
      assert run[0] in run;
      StepKeeps(cfg, s, run[0].event, run[0].env);
      PeacefulStep(cfg, s, run[0].event, run[0].env);
      PeacefulRun(cfg, Step(cfg, s, run[0].event, run[0].env), run[1..]);
    }
  }

  /** RFC 862, all of it.  A session that meets no failure and is not asked to stop
      goes on until the peer's stream ends; and when it has stopped, every byte
      that was delivered was sent back. */
  lemma EchoesEverything(cfg: Config, s: State, run: seq<Happening>)
    requires Inv(cfg, s) && Runs(cfg, s, run) && NoReset(run) && Peaceful(cfg, s, run)
    requires s.extern.ExtReady? && s.data == Initial().data
    ensures !Alive(After(cfg, s, run)) ==> Sent(cfg, s, run) == Delivered(run)
    ensures !After(cfg, s, run).intern.IntWork? ==> exists i | 0 <= i < |run| :: EndOfStream(run[i].event)
  {
    hide Step, Inv, Enabled;
    ReadyUnstopped(cfg, s);
    PeacefulRun(cfg, s, run);
    EchoOnTheWire(cfg, s, run);
    WorksUntilEnd(cfg, s, run);
  }

  lemma ReadyUnstopped(cfg: Config, s: State)
    requires Inv(cfg, s) && s.extern.ExtReady? && s.data == Initial().data
    ensures Unstopped(s) && s.intern.IntWork?
  {
  }

  lemma {:induction false} WorksUntilEnd(cfg: Config, s: State, run: seq<Happening>)
    requires Inv(cfg, s) && Runs(cfg, s, run) && NoReset(run) && Peaceful(cfg, s, run) && s.intern.IntWork?
    ensures !After(cfg, s, run).intern.IntWork? ==> exists i | 0 <= i < |run| :: EndOfStream(run[i].event)
    decreases |run|
  {
    hide Step, Echo, Timing;
    if run != [] && !EndOfStream(run[0].event) {
      assert run[0] in run;
      StepKeeps(cfg, s, run[0].event, run[0].env);
      LeavesWorkIff(cfg, s, run[0].event, run[0].env);
      WorksUntilEnd(cfg, Step(cfg, s, run[0].event, run[0].env), run[1..]);
      if i :| 0 <= i < |run[1..]| && EndOfStream(run[1..][i].event) {
        assert EndOfStream(run[i + 1].event);
      }
    }
  }

  // ----- what is offered to the socket

  /** At work a read that is started gets all the room, and a write all the bytes,
      up to the size of one transfer; during the shutdown a read gets all the room
      there is.  `read` and `write` say that none was in flight before. */
  predicate Offers(cfg: Config, read: bool, write: bool, r: State) {
    Alive(r) ==>
      && |r.data.buffer| <= cfg.capacity
      && (read && r.read.InProgress? ==>
            r.data.readLent == if r.intern.IntWork? then Min(cfg.capacity - |r.data.buffer|, cfg.maxTransfer)
                               else cfg.capacity - |r.data.buffer|)
      && (write && r.write.InProgress? ==>
            r.data.writeLent == r.data.buffer[..Min(|r.data.buffer|, cfg.maxTransfer)])
  }

  lemma ArmOffers(cfg: Config, s: State, env: Env)
    requires Alive(s) && Accounted(s)
    ensures var r := ContinueTimerWait(cfg, s, env);
            Alive(r) ==> r.data == s.data && r.read == s.read && r.write == s.write && r.intern == s.intern
  {
  }

  lemma WorkOffers(cfg: Config, s: State, env: Env)
    requires s.intern.IntWork? && !s.write.Halted? && !s.clock.timer.Halted?
    requires Accounted(s) && |s.data.buffer| <= cfg.capacity
    ensures Offers(cfg, !s.read.InProgress?, !s.write.InProgress?, ContinueWork(cfg, s, env))
  {
    hide ContinueTimerWait;
    ArmOffers(cfg, WriteTried(cfg, ReadTried(cfg, s)), env);
  }

  lemma ShutdownOffers(cfg: Config, s: State, restart: bool, env: Env)
    requires s.intern.IntShutdown?
    requires Accounted(s) && |s.data.buffer| <= cfg.capacity && cfg.Valid()
    ensures Offers(cfg, !s.read.InProgress?, !s.write.InProgress?, ContinueShutdown(cfg, s, restart, env))
  {
    hide ContinueTimerWait;
    var s1 := if s.write.Idle? then s.(write := Halted, data := s.data.(halfClose := ClosedEarly)) else s;
    if s.read.Idle? {
      ArmOffers(cfg, ReadRestarted(cfg, s1), env);
    } else if s.read.InProgress? {
      ArmOffers(cfg, s1, env);
    } else if s.write.Idle? && Min(|s.data.buffer|, cfg.maxTransfer) > 0 {
      ArmOffers(cfg, StartWrite(s, Min(|s.data.buffer|, cfg.maxTransfer)), env);
    } else {
      ArmOffers(cfg, s, env);
    }
  }

  lemma ReadOffers(cfg: Config, s: State, event: Event, env: Env)
    requires Inv(cfg, s) && Enabled(s, event, env) && Alive(s) && event.ReadDone?
    ensures Offers(cfg, true, !s.write.InProgress?, Step(cfg, s, event, env))
  {
    hide ContinueWork, ContinueShutdown, Echo, Timing;
    var s3 := ReadRegistered(s, env).(data := Take(s.data, event.bytes));
    if !CancelFails(s, env) && (!event.error.Failed() || event.error.Eof?) {
      if s.intern.IntWork? && !event.error.Failed() {
        WorkOffers(cfg, s3, env);
      } else {
        var s4 := if event.error.Eof? then s3.(read := Halted) else s3;
        var s5 := if s4.intern.IntShutdown? then s4
                  else if s4.extern.ExtWork? then s4.(intern := IntShutdown, mail := CompleteExternWait(s4.mail, Eof))
                  else s4.(intern := IntShutdown);
        ShutdownOffers(cfg, s5, true, env);
      }
    }
  }

  lemma WriteOffers(cfg: Config, s: State, event: Event, env: Env)
    requires Inv(cfg, s) && Enabled(s, event, env) && Alive(s) && event.WriteDone?
    ensures Offers(cfg, !s.read.InProgress?, true, Step(cfg, s, event, env))
  {
    hide ContinueWork, ContinueShutdown, Echo, Timing;
    if !CancelFails(s, env) && !event.error.Failed() {
      var s3 := WriteRegistered(s, env).(data := Give(s.data, event.count));
      if s.intern.IntWork? {
        WorkOffers(cfg, s3, env);
      } else {
        ShutdownOffers(cfg, s3, true, env);
      }
    }
  }

  lemma RequestOffers(cfg: Config, s: State, event: Event, env: Env)
    requires Inv(cfg, s) && Enabled(s, event, env) && Alive(s) && !IsIo(event)
    ensures Offers(cfg, !s.read.InProgress?, !s.write.InProgress?, Step(cfg, s, event, env))
  {
    hide ContinueWork, ContinueShutdown, Echo, Timing;
    if Starts(s, event) {
      WorkOffers(cfg, s.Issue(event.id).(extern := ExtWork, started := true).Touched(env.now), env);
    } else if Stops(s, event) && s.intern.IntWork? {
      var i := s.Issue(event.id);
      var s1 := i.(extern := ExtStop, mail := CompleteExternWait(i.mail, OperationAborted));
      ShutdownOffers(cfg, s1.(intern := IntShutdown), false, env);
    }
  }

  lemma StepOffers(cfg: Config, s: State, event: Event, env: Env)
    requires Inv(cfg, s) && Enabled(s, event, env) && Alive(s)
    ensures Offers(cfg, event.ReadDone? || !s.read.InProgress?, event.WriteDone? || !s.write.InProgress?,
                   Step(cfg, s, event, env))
  {
    hide Step, Inv, Enabled, Offers;
    if event.ReadDone? {
      ReadOffers(cfg, s, event, env);
    } else if event.WriteDone? {
      WriteOffers(cfg, s, event, env);
    } else {
      RequestOffers(cfg, s, event, env);
    }
  }
}

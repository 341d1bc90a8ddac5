/** What holds over whole runs of a session, whatever the order of requests and
    completions and whatever the operating system answers. */
module SessionRuns {
  import opened Errors
  import opened CyclicBuffer
  import opened ExternRequests
  import opened SessionSpec
  import opened SessionProofs
  import opened SessionFrames

  datatype Happening = Happening(event: Event, env: Env)

  predicate Runs(cfg: Config, s: State, run: seq<Happening>)
    requires Inv(cfg, s)
    decreases |run|
  {
    run == [] ||
    (Enabled(s, run[0].event, run[0].env) &&
     (StepKeeps(cfg, s, run[0].event, run[0].env);
      Runs(cfg, Step(cfg, s, run[0].event, run[0].env), run[1..])))
  }

  function After(cfg: Config, s: State, run: seq<Happening>): (r: State)
    requires Inv(cfg, s) && Runs(cfg, s, run)
    ensures Inv(cfg, r)
    decreases |run|
  {
    if run == [] then s
    else
      StepKeeps(cfg, s, run[0].event, run[0].env);
      After(cfg, Step(cfg, s, run[0].event, run[0].env), run[1..])
  }

  // ----- the echo

  function ReadBytes(event: Event): seq<Byte> {
    if event.ReadDone? then event.bytes else []
  }

  /** Of the bytes a write was given, as many as its completion reports. */
  function WrittenBytes(s: State, event: Event): seq<Byte>
    requires event.WriteDone? ==> event.count <= |s.data.writeLent|
  {
    if event.WriteDone? then s.data.writeLent[..event.count] else []
  }

  /** All bytes the reads of a run delivered, in order. */
  function Delivered(run: seq<Happening>): seq<Byte> {
    if run == [] then [] else ReadBytes(run[0].event) + Delivered(run[1..])
  }

  /** All bytes the writes of a run put on the wire, in order. */
  function Sent(cfg: Config, s: State, run: seq<Happening>): seq<Byte>
    requires Inv(cfg, s) && Runs(cfg, s, run)
    decreases |run|
  {
    if run == [] then []
    else
      StepKeeps(cfg, s, run[0].event, run[0].env);
      WrittenBytes(s, run[0].event) + Sent(cfg, Step(cfg, s, run[0].event, run[0].env), run[1..])
  }

  predicate NoReset(run: seq<Happening>) {
    forall h | h in run :: !h.event.Reset?
  }

  /** How the bytes counted outside the session relate to its own records. */
  predicate Wire(s: State, delivered: seq<Byte>, sent: seq<Byte>) {
    && s.data.received <= delivered
    && (Alive(s) || s.read.InProgress? ==> s.data.received == delivered)
    && sent <= s.data.received
    && (!s.write.Halted? ==> sent == s.data.written)
    && (s.data.halfClose.ClosedAfterEof? ==>
          s.read.Halted? && sent == s.data.written && s.data.received == delivered)
  }

  lemma WireOnRead(cfg: Config, s: State, error: Error, bytes: seq<Byte>, env: Env,
                   delivered: seq<Byte>, sent: seq<Byte>)
    requires Inv(cfg, s) && Enabled(s, ReadDone(error, bytes), env) && Wire(s, delivered, sent)
    ensures Wire(HandleRead(cfg, s, error, bytes, env), delivered + bytes, sent)
  {
    ReadFrame(cfg, s, error, bytes, env);
  }

  lemma WireOnWrite(cfg: Config, s: State, error: Error, count: nat, env: Env,
                    delivered: seq<Byte>, sent: seq<Byte>)
    requires Inv(cfg, s) && Enabled(s, WriteDone(error, count), env) && Wire(s, delivered, sent)
    ensures Wire(HandleWrite(cfg, s, error, count, env), delivered, sent + s.data.writeLent[..count])
  {
    GiveKeeps(cfg, s.data, count);
    WriteFrame(cfg, s, error, count, env);
  }

  lemma WireOnRequest(cfg: Config, s: State, event: Event, env: Env,
                      delivered: seq<Byte>, sent: seq<Byte>)
    requires Inv(cfg, s) && Enabled(s, event, env) && Wire(s, delivered, sent)
    requires event.Start? || event.Stop? || event.Wait?
    ensures Wire(Step(cfg, s, event, env), delivered, sent)
  {
    match event
    case Start(id, options) =>
      if s.extern.ExtReady? && !options.Failed() {
        WorkSteady(cfg, s.Issue(id).(extern := ExtWork, started := true).Touched(env.now), env);
      }
    case Stop(id) =>
      if s.intern.IntWork? {
        var i := s.Issue(id);
        var s1 := i.(extern := ExtStop, mail := CompleteExternWait(i.mail, OperationAborted));
        StartShutdownSteady(cfg, s1, OperationAborted, false, env);
      }
    case Wait(id) =>
  }

  lemma WireStep(cfg: Config, s: State, event: Event, env: Env,
                 delivered: seq<Byte>, sent: seq<Byte>)
    requires Inv(cfg, s) && Enabled(s, event, env) && !event.Reset? && Wire(s, delivered, sent)
    ensures Wire(Step(cfg, s, event, env), delivered + ReadBytes(event), sent + WrittenBytes(s, event))
  {
    assert delivered + [] == delivered && sent + [] == sent;
    match event
    case ReadDone(error, bytes) => WireOnRead(cfg, s, error, bytes, env, delivered, sent);
    case WriteDone(error, count) => WireOnWrite(cfg, s, error, count, env, delivered, sent);
    case TimerDone(error) => TimerFrame(cfg, s, error, env);
    case _ => WireOnRequest(cfg, s, event, env, delivered, sent);
  }

  lemma ConcatAssociates(a: seq<Byte>, b: seq<Byte>, c: seq<Byte>)
    ensures (a + b) + c == a + (b + c)
  {
  }

  lemma {:induction false} WireOverRun(cfg: Config, s: State, run: seq<Happening>,
                                       delivered: seq<Byte>, sent: seq<Byte>)
    requires Inv(cfg, s) && Runs(cfg, s, run) && NoReset(run) && Wire(s, delivered, sent)
    ensures Wire(After(cfg, s, run), delivered + Delivered(run), sent + Sent(cfg, s, run))
    decreases |run|
  {
    if run == [] {
      assert delivered + [] == delivered && sent + [] == sent;
    } else {
      var event, env := run[0].event, run[0].env;
      assert run[0] in run;
      StepKeeps(cfg, s, event, env);
      WireStep(cfg, s, event, env, delivered, sent);
      var r := Step(cfg, s, event, env);
      var d, w := delivered + ReadBytes(event), sent + WrittenBytes(s, event);
      WireOverRun(cfg, r, run[1..], d, w);
      ConcatAssociates(delivered, ReadBytes(event), Delivered(run[1..]));
      ConcatAssociates(sent, WrittenBytes(s, event), Sent(cfg, r, run[1..]));
    }
  }

  /** RFC 862 on the wire.  In every life of a session the bytes put on the wire
      are a prefix of the bytes received from the peer: nothing is altered,
      repeated, reordered or invented.  When the sending half was closed because
      the peer's stream had ended, they are all of those bytes. */
  lemma EchoOnTheWire(cfg: Config, s: State, run: seq<Happening>)
    requires Inv(cfg, s) && Runs(cfg, s, run) && NoReset(run)
    requires s.extern.ExtReady? && s.data == Initial().data
    ensures Sent(cfg, s, run) <= Delivered(run)
    ensures After(cfg, s, run).data.halfClose.ClosedAfterEof? ==> Sent(cfg, s, run) == Delivered(run)
  {
    WireOverRun(cfg, s, run, [], []);
    assert [] + Delivered(run) == Delivered(run);
    assert [] + Sent(cfg, s, run) == Sent(cfg, s, run);
  }

  // ----- progress and drain

  /** A started session that has not begun to stop always has a read or a write
      in flight; no operation is in flight exactly when the session was not used
      yet or has stopped. */
  lemma NeverStalls(cfg: Config, s: State)
    requires Inv(cfg, s)
    ensures s.started && Alive(s) ==> s.read.InProgress? || s.write.InProgress?
    ensures s.pending == 0 <==> s.extern.ExtReady? || s.intern.IntStopped?
    ensures 0 <= s.pending <= 3
  {
  }

  /** Pending operations are exactly the activities in progress. */
  predicate Counted(s: State) {
    s.pending == (if s.read.InProgress? then 1 else 0) + (if s.write.InProgress? then 1 else 0)
                 + (if s.clock.timer.InProgress? then 1 else 0)
  }

  /** In work an idle read means a full buffer, an idle write an empty one. */
  predicate Flowing(cfg: Config, s: State) {
    s.intern.IntWork? && s.started ==>
      (s.read.Idle? ==> |s.data.buffer| == cfg.capacity) && (s.write.Idle? ==> s.data.buffer == [])
  }

  /** What was written and what is buffered are what was read, until buffered
      bytes are thrown away, which happens only once the sending half is closed;
      when it was closed because the peer's stream had ended, all was written. */
  predicate Echoing(s: State) {
    && s.data.written <= s.data.received
    && (!s.data.discarded ==> s.data.received == s.data.written + s.data.buffer)
    && (s.data.discarded ==> s.write.Halted?)
    && (s.data.halfClose.ClosedAfterEof? ==> s.data.written == s.data.received)
  }

  /** With a timeout configured, the timer of a started session that has not
      begun to stop is turned on and waited for. */
  predicate TimerArmed(cfg: Config, s: State) {
    s.started && Alive(s) && cfg.timeout.Some? ==> s.clock.turned && s.clock.timer.InProgress?
  }

  /** A parked wait means work, a parked stop means a stop that goes on. */
  predicate HandlersParked(s: State) {
    && (s.mail.waitHandler.Some? ==> s.extern.ExtWork? && s.intern.IntWork?)
    && (s.mail.stopHandler.Some? <==> s.extern.ExtStop?)
    && (s.mail.stopHandler.Some? ==> !s.intern.IntStopped?)
  }

  /** After every run, from the initial state or any other sound one. */
  lemma EveryRun(cfg: Config, s: State, run: seq<Happening>)
    requires Inv(cfg, s) && Runs(cfg, s, run)
    ensures var r := After(cfg, s, run);
            Counted(r) && Flowing(cfg, r) && Echoing(r) && TimerArmed(cfg, r) && HandlersParked(r)
  {
  }

  function Completions(run: seq<Happening>): nat {
    if run == [] then 0
    else
      var e := run[0].event;
      (if e.ReadDone? || e.WriteDone? || e.TimerDone? then 1 else 0) + Completions(run[1..])
  }

  /** One step while stopping: requests start no operation, each completion
      retires one, and the last one ends the stop. */
  lemma StopStep(cfg: Config, s: State, event: Event, env: Env)
    requires Inv(cfg, s) && Enabled(s, event, env) && !event.Reset?
    requires s.intern.IntStop? || s.intern.IntStopped?
    ensures var r := Step(cfg, s, event, env);
            && (r.intern.IntStop? || r.intern.IntStopped?)
            && r.pending == s.pending - Completions([Happening(event, env)])
  {
    assert [Happening(event, env)][1..] == [];
  }

  /** Once stopping, at most three completions remain, and exactly when the
      operations in flight have completed the session is stopped and a stop
      request is answered. */
  lemma {:induction false} StopDrains(cfg: Config, s: State, run: seq<Happening>)
    requires Inv(cfg, s) && Runs(cfg, s, run) && NoReset(run)
    requires s.intern.IntStop? || s.intern.IntStopped?
    ensures Completions(run) <= s.pending <= 3
    ensures var r := After(cfg, s, run);
            && (r.intern.IntStopped? <==> Completions(run) == s.pending)
            && (r.intern.IntStopped? ==> r.mail.stopHandler.None? && r.mail.waitHandler.None?)
    decreases |run|
  {
    NeverStalls(cfg, s);
    if run != [] {
      assert run[0] in run;
      StopStep(cfg, s, run[0].event, run[0].env);
      StepKeeps(cfg, s, run[0].event, run[0].env);
      assert [Happening(run[0].event, run[0].env)] == run[..1];
      assert [run[0]][1..] == [];
      StopDrains(cfg, Step(cfg, s, run[0].event, run[0].env), run[1..]);
    }
  }
}

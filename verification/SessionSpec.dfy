/** One echo session as a state machine on values: what each handler does to
    the session's fields.  Every BOOST_ASSERT of the handlers is a `requires`
    here, so a step is only defined where no assertion fails. */
module SessionSpec {
  import opened Errors
  import opened CyclicBuffer
  import opened ExternRequests

  datatype Intern = IntWork | IntShutdown | IntStop | IntStopped

  /** State of the read, write and timer activities. */
  datatype Activity = Idle | InProgress | Halted

  /** How the outgoing half of the connection was closed, if it was. */
  datatype HalfClose = NotClosed | ClosedEarly | ClosedAfterEof

  datatype Config = Config(maxTransfer: nat, capacity: nat, timeout: Option<nat>)
  {
    /** What the option parser checks before a session is created. */
    predicate Valid() { maxTransfer >= 1 && capacity >= 1 }
  }

  /** The inactivity timer: the activity and its two flags; the expiry time set
      last, the expiry the wait in flight was started for, whether that wait was
      cancelled or rescheduled since; and the time of the last completed read or
      write (or of the start). */
  datatype Clock = Clock(timer: Activity, waitCancelled: bool, turned: bool,
                         deadline: int, armedFor: int, aborted: bool, lastActivity: int)

  /** The echoed bytes: the filled part of the buffer; how much room the read in
      flight was lent and which bytes the write in flight was given; all bytes
      taken from reads and all bytes committed as written; whether buffered bytes
      were ever thrown away; and how the sending half was closed. */
  datatype Data = Data(buffer: seq<Byte>, readLent: nat, writeLent: seq<Byte>,
                       received: seq<Byte>, written: seq<Byte>, discarded: bool,
                       halfClose: HalfClose)

  datatype State = State(extern: Extern, intern: Intern, read: Activity, write: Activity,
                         pending: int, started: bool, clock: Clock, data: Data, mail: Mail)
  {
    function WithTimer(a: Activity): State { this.(clock := clock.(timer := a)) }

    function Touched(now: int): State { this.(clock := clock.(lastActivity := now)) }

    function Issue(id: nat): State { this.(mail := IssueMail(mail, id)) }
  }

  /** What the operating system answers during one step: the clock and the
      results of the calls a step makes at most once each. */
  datatype Env = Env(now: int, cancel: Error, shutdown: Error, expires: Error,
                     close: Error, stopCancel: Error)
  {
    predicate Valid() {
      cancel.IsSystem() && shutdown.IsSystem() && expires.IsSystem()
      && close.IsSystem() && stopCancel.IsSystem()
    }
  }

  datatype Event =
    | Start(id: nat, options: Error)
    | Stop(id: nat)
    | Wait(id: nat)
    | ReadDone(error: Error, bytes: seq<Byte>)
    | WriteDone(error: Error, count: nat)
    | TimerDone(error: Error)
    | Reset

  function Initial(): State {
    State(ExtReady, IntWork, Idle, Idle, 0, false,
          Clock(Idle, false, false, 0, 0, false, 0),
          Data([], 0, [], [], [], false, NotClosed),
          NoMail)
  }

  function Running(a: Activity): int { if a.InProgress? then 1 else 0 }

  predicate Accounted(s: State) {
    s.pending == Running(s.read) + Running(s.write) + Running(s.clock.timer)
  }

  function Post(s: State, id: nat, error: Error): State {
    s.(mail := PostMail(s.mail, id, error))
  }

  // ----- socket and timer operations

  function StartRead(s: State, size: nat): State {
    s.(pending := s.pending + 1, read := InProgress, data := s.data.(readLent := size))
  }

  function StartWrite(s: State, size: nat): State
    requires size <= |s.data.buffer|
  {
    s.(pending := s.pending + 1, write := InProgress,
       data := s.data.(writeLent := s.data.buffer[..size]))
  }

  function StartTimerWait(s: State): State
    requires s.clock.timer.Idle?
  {
    s.(pending := s.pending + 1,
       clock := s.clock.(timer := InProgress, waitCancelled := false,
                         armedFor := s.clock.deadline, aborted := false))
  }

  /** The timer is told to cancel only when a wait is in flight that was not
      cancelled before; `answer` is what the timer then reports. */
  function CancelError(c: Clock, answer: Error): Error {
    if !c.waitCancelled && c.timer.InProgress? then answer else Success
  }

  function CancelTimerWait(c: Clock, answer: Error): Clock {
    if CancelError(c, answer).Failed() then c
    else c.(waitCancelled := true, turned := false,
            aborted := c.aborted || (!c.waitCancelled && c.timer.InProgress?))
  }

  /** Sets the expiry, which also aborts a wait that is in flight. */
  function Reschedule(c: Clock, deadline: int): Clock {
    c.(deadline := deadline, waitCancelled := true, turned := true,
       aborted := c.aborted || c.timer.InProgress?)
  }

  function Halt(a: Activity): Activity { if a.Idle? then Halted else a }

  // ----- stop

  function ContinueStop(s: State): State
    requires s.intern.IntStop?
    requires s.pending == 0 ==> s.read.Halted? && s.write.Halted? && s.clock.timer.Halted?
  {
    if s.pending != 0 then s
    else if s.extern.ExtStop? then
      s.(intern := IntStopped, extern := ExtStopped, mail := CompleteExternStop(s.mail, Success))
    else s.(intern := IntStopped)
  }

  /** The error a stop is registered with: its own cause first. */
  function StopError(error: Error, closeError: Error, timerError: Error): Error {
    if error.Failed() then error else if closeError.Failed() then closeError else timerError
  }

  /** The socket is closed, the timer cancelled, and idle activities are halted. */
  function StopBegun(s: State, env: Env): State {
    var clock := CancelTimerWait(s.clock, env.stopCancel);
    s.(intern := IntStop, read := Halt(s.read), write := Halt(s.write),
       clock := clock.(timer := Halt(clock.timer)))
  }

  function StartStop(s: State, error: Error, env: Env): State
    requires s.intern.IntWork? || s.intern.IntShutdown?
    requires Accounted(s)
  {
    var cause := StopError(error, env.close, CancelError(s.clock, env.stopCancel));
    var r := StopBegun(s, env);
    ContinueStop(if r.extern.ExtWork? then r.(mail := CompleteExternWait(r.mail, cause)) else r)
  }

  // ----- work

  function ContinueTimerWait(cfg: Config, s: State, env: Env): State
    requires s.intern.IntWork? || s.intern.IntShutdown?
    requires Accounted(s)
  {
    if cfg.timeout.None? then s
    else if (s.read.InProgress? || s.write.InProgress?) && !s.clock.turned then
      if env.expires.Failed() then StartStop(s, env.expires, env)
      else
        var r := s.(clock := Reschedule(s.clock, env.now + cfg.timeout.value));
        if r.clock.timer.Idle? then StartTimerWait(r) else r
    else s
  }

  function ReadTried(cfg: Config, s: State): State
    requires |s.data.buffer| <= cfg.capacity
  {
    var room := Min(cfg.capacity - |s.data.buffer|, cfg.maxTransfer);
    if s.read.Idle? && room > 0 then StartRead(s, room) else s
  }

  function WriteTried(cfg: Config, s: State): State {
    var filled := Min(|s.data.buffer|, cfg.maxTransfer);
    if s.write.Idle? && filled > 0 then StartWrite(s, filled) else s
  }

  function ContinueWork(cfg: Config, s: State, env: Env): State
    requires s.intern.IntWork? && !s.write.Halted? && !s.clock.timer.Halted?
    requires Accounted(s) && |s.data.buffer| <= cfg.capacity
  {
    ContinueTimerWait(cfg, WriteTried(cfg, ReadTried(cfg, s)), env)
  }

  // ----- shutdown

  /** Keeps reading so that the end of the peer's stream is noticed; once nothing
      more will be sent, what was buffered is thrown away first. */
  function ReadRestarted(cfg: Config, s: State): State
    requires |s.data.buffer| <= cfg.capacity
  {
    if s.write.Halted? then
      StartRead(s.(data := s.data.(buffer := [], discarded := true)), cfg.capacity)
    else if cfg.capacity > |s.data.buffer| then StartRead(s, cfg.capacity - |s.data.buffer|)
    else s
  }

  function ContinueShutdownAtReadWait(cfg: Config, s: State, restart: bool, env: Env): State
    requires s.intern.IntShutdown? && s.read.Idle?
    requires Accounted(s) && |s.data.buffer| <= cfg.capacity && cfg.Valid()
  {
    if s.write.Idle? && env.shutdown.Failed() then StartStop(s, env.shutdown, env)
    else
      var s1 := if s.write.Idle? then s.(write := Halted, data := s.data.(halfClose := ClosedEarly)) else s;
      var s2 := ReadRestarted(cfg, s1);
      if restart then ContinueTimerWait(cfg, s2, env) else s2
  }

  function ContinueShutdownAtReadInProgress(cfg: Config, s: State, restart: bool, env: Env): State
    requires s.intern.IntShutdown? && s.read.InProgress?
    requires Accounted(s)
  {
    if s.write.Idle? && env.shutdown.Failed() then StartStop(s, env.shutdown, env)
    else
      var s1 := if s.write.Idle? then s.(write := Halted, data := s.data.(halfClose := ClosedEarly)) else s;
      if restart then ContinueTimerWait(cfg, s1, env) else s1
  }

  function ContinueShutdownAtReadStopped(cfg: Config, s: State, restart: bool, env: Env): State
    requires s.intern.IntShutdown? && s.read.Halted?
    requires Accounted(s)
  {
    var filled := Min(|s.data.buffer|, cfg.maxTransfer);
    var s1 :=
      if !s.write.Idle? then s
      else if filled > 0 then StartWrite(s, filled)
      else s.(write := Halted, data := s.data.(halfClose := ClosedAfterEof));
    if s1.write.Halted? then StartStop(s1, Success, env)
    else if restart then ContinueTimerWait(cfg, s1, env)
    else s1
  }

  function ContinueShutdown(cfg: Config, s: State, restart: bool, env: Env): State
    requires s.intern.IntShutdown?
    requires Accounted(s) && |s.data.buffer| <= cfg.capacity && cfg.Valid()
  {
    match s.read
    case Idle => ContinueShutdownAtReadWait(cfg, s, restart, env)
    case InProgress => ContinueShutdownAtReadInProgress(cfg, s, restart, env)
    case Halted => ContinueShutdownAtReadStopped(cfg, s, restart, env)
  }

  function StartShutdown(cfg: Config, s: State, error: Error, restart: bool, env: Env): State
    requires s.intern.IntWork?
    requires Accounted(s) && |s.data.buffer| <= cfg.capacity && cfg.Valid()
  {
    var s1 := s.(intern := IntShutdown);
    var s2 := if s1.extern.ExtWork? then s1.(mail := CompleteExternWait(s1.mail, error)) else s1;
    ContinueShutdown(cfg, s2, restart, env)
  }

  // ----- external requests

  function DoStart(cfg: Config, s: State, id: nat, options: Error, env: Env): State
    requires s.extern.ExtReady? ==>
               s.intern.IntWork? && !s.write.Halted? && !s.clock.timer.Halted? && Accounted(s)
               && |s.data.buffer| <= cfg.capacity
  {
    if !s.extern.ExtReady? then Post(s, id, InvalidState)
    else if options.Failed() then
      Post(s.(extern := ExtStopped, intern := IntStopped, read := Halted, write := Halted,
              clock := s.clock.(timer := Halted)), id, options)
    else
      Post(ContinueWork(cfg, s.(extern := ExtWork, started := true).Touched(env.now), env),
           id, Success)
  }

  function DoStop(cfg: Config, s: State, id: nat, env: Env): State
    requires Accounted(s) && |s.data.buffer| <= cfg.capacity && cfg.Valid()
  {
    if s.extern.ExtStopped? || s.extern.ExtStop? then Post(s, id, InvalidState)
    else
      var s1 := s.(extern := ExtStop, mail := CompleteExternWait(s.mail, OperationAborted));
      var s2 := if s1.intern.IntWork? then StartShutdown(cfg, s1, OperationAborted, false, env) else s1;
      if s2.intern.IntStopped? then Post(s2.(extern := ExtStopped), id, Success)
      else s2.(mail := s2.mail.(stopHandler := Some(id)))
  }

  function DoWait(s: State, id: nat): State {
    if !s.extern.ExtWork? || s.mail.waitHandler.Some? then Post(s, id, InvalidState)
    else if !s.intern.IntWork? then Post(s, id, s.mail.waitError)
    else s.(mail := s.mail.(waitHandler := Some(id)))
  }

  /** The socket is closed as well, which has no trace in this state. */
  function DoReset(s: State): State {
    Initial().(mail := s.mail.(waitError := Success))
  }

  // ----- completions of read operations

  /** A read completed: its activity is idle and the timer is told to cancel. */
  function ReadRegistered(s: State, env: Env): State {
    s.(pending := s.pending - 1, read := Idle,
       clock := CancelTimerWait(s.clock.(lastActivity := env.now), env.cancel))
  }

  function WriteRegistered(s: State, env: Env): State {
    s.(pending := s.pending - 1, write := Idle,
       clock := CancelTimerWait(s.clock.(lastActivity := env.now), env.cancel))
  }

  function Take(d: Data, bytes: seq<Byte>): Data {
    d.(buffer := d.buffer + bytes, received := d.received + bytes)
  }

  function Give(d: Data, count: nat): Data
    requires count <= |d.buffer| && count <= |d.writeLent|
  {
    d.(buffer := d.buffer[count..], written := d.written + d.writeLent[..count])
  }

  function HandleReadAtWork(cfg: Config, s: State, error: Error, bytes: seq<Byte>, env: Env): State
    requires s.intern.IntWork? && s.read.InProgress?
    requires !s.write.Halted? && !s.clock.timer.Halted?
    requires Accounted(s) && |s.data.buffer| + |bytes| <= cfg.capacity && cfg.Valid()
  {
    var timerError := CancelError(s.clock, env.cancel);
    var s2 := ReadRegistered(s, env);
    if timerError.Failed() then StartStop(s2.(read := Halted), timerError, env)
    else if error.Failed() && !error.Eof? then StartStop(s2.(read := Halted), error, env)
    else
      var s3 := s2.(data := Take(s2.data, bytes));
      if error.Eof? then StartShutdown(cfg, s3.(read := Halted), error, true, env)
      else ContinueWork(cfg, s3, env)
  }

  function HandleReadAtShutdown(cfg: Config, s: State, error: Error, bytes: seq<Byte>, env: Env): State
    requires s.intern.IntShutdown? && s.read.InProgress?
    requires Accounted(s) && |s.data.buffer| + |bytes| <= cfg.capacity && cfg.Valid()
  {
    var timerError := CancelError(s.clock, env.cancel);
    var s2 := ReadRegistered(s, env);
    if timerError.Failed() then StartStop(s2.(read := Halted), timerError, env)
    else if error.Failed() && !error.Eof? then StartStop(s2.(read := Halted), error, env)
    else
      var s3 := s2.(data := Take(s2.data, bytes));
      ContinueShutdown(cfg, if error.Eof? then s3.(read := Halted) else s3, true, env)
  }

  function HandleReadAtStop(s: State): State
    requires s.intern.IntStop? && s.read.InProgress?
    requires Accounted(s) && !s.write.Idle? && !s.clock.timer.Idle?
  {
    ContinueStop(s.(pending := s.pending - 1, read := Halted))
  }

  // ----- completions of write operations

  function HandleWriteAtWork(cfg: Config, s: State, error: Error, count: nat, env: Env): State
    requires s.intern.IntWork? && s.write.InProgress?
    requires !s.clock.timer.Halted?
    requires Accounted(s) && count <= |s.data.writeLent| <= |s.data.buffer| <= cfg.capacity
  {
    var timerError := CancelError(s.clock, env.cancel);
    var s2 := WriteRegistered(s, env);
    if timerError.Failed() then StartStop(s2.(write := Halted), timerError, env)
    else if error.Failed() then StartStop(s2.(write := Halted), error, env)
    else
      ContinueWork(cfg, s2.(data := Give(s2.data, count)), env)
  }

  function HandleWriteAtShutdown(cfg: Config, s: State, error: Error, count: nat, env: Env): State
    requires s.intern.IntShutdown? && s.write.InProgress?
    requires Accounted(s) && count <= |s.data.writeLent| <= |s.data.buffer| <= cfg.capacity && cfg.Valid()
  {
    var timerError := CancelError(s.clock, env.cancel);
    var s2 := WriteRegistered(s, env);
    if timerError.Failed() then StartStop(s2.(write := Halted), timerError, env)
    else if error.Failed() then StartStop(s2.(write := Halted), error, env)
    else
      ContinueShutdown(cfg, s2.(data := Give(s2.data, count)), true, env)
  }

  function HandleWriteAtStop(s: State): State
    requires s.intern.IntStop? && s.write.InProgress?
    requires Accounted(s) && !s.read.Idle? && !s.clock.timer.Idle?
  {
    ContinueStop(s.(pending := s.pending - 1, write := Halted))
  }

  // ----- completions of the timer

  function HandleTimerAtWork(s: State, error: Error, env: Env): State
    requires s.intern.IntWork? || s.intern.IntShutdown?
    requires s.clock.timer.InProgress? && Accounted(s)
  {
    var s1 := s.(pending := s.pending - 1).WithTimer(Idle);
    if error.Failed() && !error.TimerAborted? then StartStop(s1.WithTimer(Halted), error, env)
    else if s1.clock.waitCancelled then (if s1.clock.turned then StartTimerWait(s1) else s1)
    else StartStop(s1.WithTimer(Halted), InactivityTimeout, env)
  }

  function HandleTimerAtStop(s: State): State
    requires s.intern.IntStop? && s.clock.timer.InProgress?
    requires Accounted(s) && !s.read.Idle? && !s.write.Idle?
  {
    ContinueStop(s.(pending := s.pending - 1).WithTimer(Halted))
  }

  // ----- one step

  function HandleRead(cfg: Config, s: State, error: Error, bytes: seq<Byte>, env: Env): State
    requires Ready(cfg, s) && s.read.InProgress? && |s.data.buffer| + |bytes| <= cfg.capacity
  {
    match s.intern
    case IntWork => HandleReadAtWork(cfg, s, error, bytes, env)
    case IntShutdown => HandleReadAtShutdown(cfg, s, error, bytes, env)
    case IntStop => HandleReadAtStop(s)
    case IntStopped => assert false; s
  }

  function HandleWrite(cfg: Config, s: State, error: Error, count: nat, env: Env): State
    requires Ready(cfg, s) && s.write.InProgress? && count <= |s.data.writeLent| <= |s.data.buffer|
  {
    match s.intern
    case IntWork => HandleWriteAtWork(cfg, s, error, count, env)
    case IntShutdown => HandleWriteAtShutdown(cfg, s, error, count, env)
    case IntStop => HandleWriteAtStop(s)
    case IntStopped => assert false; s
  }

  function HandleTimer(cfg: Config, s: State, error: Error, env: Env): State
    requires Ready(cfg, s) && s.clock.timer.InProgress?
  {
    match s.intern
    case IntWork => HandleTimerAtWork(s, error, env)
    case IntShutdown => HandleTimerAtWork(s, error, env)
    case IntStop => HandleTimerAtStop(s)
    case IntStopped => assert false; s
  }

  /** The part of the invariant that the assertions of the handlers rest on. */
  predicate Ready(cfg: Config, s: State) {
    && cfg.Valid() && Accounted(s) && |s.data.buffer| <= cfg.capacity
    && (s.extern.ExtReady? ==> s.intern.IntWork?)
    && (s.intern.IntWork? ==> !s.read.Halted? && !s.write.Halted? && !s.clock.timer.Halted?)
    && (s.intern.IntStop? ==> !s.read.Idle? && !s.write.Idle? && !s.clock.timer.Idle?)
    && (s.intern.IntStopped? ==> s.read.Halted? && s.write.Halted? && s.clock.timer.Halted?)
  }

  /** When the environment may deliver an event: requests carry an identity of
      their own, a completion needs its operation in flight and respects what
      the operation was given, a timer wait ends without error only after its
      deadline and is aborted only after it was cancelled or rescheduled. */
  predicate Enabled(s: State, event: Event, env: Env) {
    env.Valid() &&
    match event
    case Start(id, options) => id !in s.mail.issued && options.IsSystem()
    case Stop(id) => id !in s.mail.issued
    case Wait(id) => id !in s.mail.issued
    case ReadDone(error, bytes) => s.read.InProgress? && |bytes| <= s.data.readLent && error.IsSystem()
    case WriteDone(error, count) => s.write.InProgress? && count <= |s.data.writeLent| && error.IsSystem()
    case TimerDone(error) =>
      && s.clock.timer.InProgress? && error.IsSystem()
      && (!error.Failed() ==> s.clock.armedFor <= env.now)
      && (error.TimerAborted? ==> s.clock.aborted)
    case Reset => s.pending == 0
  }

  /** What an operation in flight may rely on about the buffer. */
  predicate Lent(cfg: Config, s: State) {
    && (s.read.InProgress? ==> 1 <= s.data.readLent && |s.data.buffer| + s.data.readLent <= cfg.capacity)
    && (s.write.InProgress? ==> 1 <= |s.data.writeLent| && s.data.writeLent <= s.data.buffer)
  }

  function Step(cfg: Config, s: State, event: Event, env: Env): State
    requires Ready(cfg, s) && Lent(cfg, s) && Enabled(s, event, env)
  {
    match event
    case Start(id, options) => DoStart(cfg, s.Issue(id), id, options, env)
    case Stop(id) => DoStop(cfg, s.Issue(id), id, env)
    case Wait(id) => DoWait(s.Issue(id), id)
    case ReadDone(error, bytes) => HandleRead(cfg, s, error, bytes, env)
    case WriteDone(error, count) => HandleWrite(cfg, s, error, count, env)
    case TimerDone(error) => HandleTimer(cfg, s, error, env)
    case Reset => DoReset(s)
  }
}

/** The session object: its handlers update the fields in place, and each one is
    proved to do exactly what the state machine of SessionSpec does. */
module Session {
  import opened Errors
  import opened Ring = CyclicBuffer
  import opened ExternRequests
  import opened SessionSpec
  import opened SessionProofs

  /** What the fields of the source do not record: the timer object, what the
      operations in flight were lent, and the history. */
  datatype Past = Past(deadline: int, armedFor: int, aborted: bool, started: bool, lastActivity: int,
                       received: seq<Byte>, written: seq<Byte>,
                       discarded: bool, halfClose: HalfClose, issued: set<nat>)

  const NoPast := Past(0, 0, false, false, 0, [], [], false, NotClosed, {})

  class Session {
    const cfg: Config
    var externState: Extern
    var internState: Intern
    var readState: Activity
    var writeState: Activity
    var timerState: Activity
    var timerWaitCancelled: bool
    var timerTurned: bool
    var pendingOperations: int
    const buffer: Ring.CyclicBuffer
    var externWaitError: Error
    var externWaitHandler: Option<nat>
    var externStopHandler: Option<nat>

    /** Handlers given to the io_service. */
    var posted: seq<Completion>
    /** The memory lent to the operations in flight. */
    var readFrom: nat
    var readSize: nat
    ghost var writeFrom: nat
    ghost var writeLent: seq<Byte>
    ghost var past: Past

    /** The buffer is sound, and every operation in flight still owns the memory
        it was lent: it begins the sequence it was taken from. */
    ghost predicate Wf()
      reads this, buffer, buffer.data
    {
      && cfg.Valid() && buffer.Valid() && buffer.data.Length == cfg.capacity
      && (readState.InProgress? ==>
            readFrom == buffer.nonfilledStart && readSize <= buffer.nonfilledSize)
      && (writeState.InProgress? ==>
            writeFrom == buffer.filledStart && |writeLent| <= buffer.filledSize)
    }

    ghost function State(): SessionSpec.State
      reads this, buffer`filled
    {
      SessionSpec.State(externState, internState, readState, writeState, pendingOperations, past.started,
        Clock(timerState, timerWaitCancelled, timerTurned,
              past.deadline, past.armedFor, past.aborted, past.lastActivity),
        Data(buffer.filled, readSize, writeLent, past.received, past.written,
             past.discarded, past.halfClose),
        Mail(externWaitError, externWaitHandler, externStopHandler, past.issued, posted))
    }

    ghost predicate Valid()
      reads this, buffer, buffer.data
    {
      Wf() && Inv(cfg, State())
    }

    constructor (config: Config)
      requires config.Valid()
      ensures Wf() && cfg == config && State() == Initial()
      ensures fresh(buffer) && fresh(buffer.data)
    {
      cfg := config;
      externState, internState := ExtReady, IntWork;
      readState, writeState, timerState := Idle, Idle, Idle;
      timerWaitCancelled, timerTurned, pendingOperations := false, false, 0;
      externWaitError, externWaitHandler, externStopHandler := Success, None, None;
      posted, readFrom, readSize, writeFrom, writeLent, past := [], 0, 0, 0, [], NoPast;
      buffer := new Ring.CyclicBuffer(config.capacity);
    }

    /** One turn of the session's strand, whatever comes next: the object does
        what the state machine does, and stays valid. */
    method Handle(event: Event, env: Env)
      requires Valid() && Enabled(State(), event, env)
      modifies this, buffer, buffer.data
      ensures Wf() && State() == Step(cfg, old(State()), event, env)
      ensures Valid()
    {
      ghost var s := State();
      StepKeeps(cfg, s, event, env);
      match event {
        case Start(id, options) => AsyncStart(id, options, env);
        case Stop(id) => AsyncStop(id, env);
        case Wait(id) => AsyncWait(id, env);
        case Reset => DoReset(env);
        case ReadDone(error, bytes) => HandleRead(error, bytes, env);
        case WriteDone(error, count) => HandleWrite(error, count, env);
        case TimerDone(error) => HandleTimer(error, env);
      }
    }

    // ----- external requests

    method AsyncStart(id: nat, options: Error, env: Env)
      requires Wf() && Ready(cfg, State()) && Lent(cfg, State()) && Enabled(State(), Start(id, options), env)
      modifies this, buffer
      ensures Wf() && State() == Step(cfg, old(State()), Start(id, options), env)
    {
      past := past.(issued := past.issued + {id});
      var error := DoStartExternStart(id, options, env);
      posted := posted + [Completion(id, error)];
    }

    method AsyncStop(id: nat, env: Env)
      requires Wf() && Ready(cfg, State()) && Lent(cfg, State()) && Enabled(State(), Stop(id), env)
      modifies this, buffer
      ensures Wf() && State() == Step(cfg, old(State()), Stop(id), env)
    {
      past := past.(issued := past.issued + {id});
      ServeStop(id, env);
    }

    method ServeStop(id: nat, env: Env)
      requires Wf() && Accounted(State())
      modifies this, buffer
      ensures Wf() && State() == SessionSpec.DoStop(cfg, old(State()), id, env)
    {
      var result := DoStartExternStop(id, env);
      if result.Some? {
        posted := posted + [Completion(id, result.value)];
      } else {
        externStopHandler := Some(id);
      }
    }

    method AsyncWait(id: nat, env: Env)
      requires Wf() && Ready(cfg, State()) && Lent(cfg, State()) && Enabled(State(), Wait(id), env)
      modifies this
      ensures Wf() && State() == Step(cfg, old(State()), Wait(id), env)
    {
      past := past.(issued := past.issued + {id});
      ServeWait(id);
    }

    method ServeWait(id: nat)
      modifies `posted, `externWaitHandler
      ensures State() == SessionSpec.DoWait(old(State()), id)
    {
      var result := DoStartExternWait(id);
      if result.Some? {
        posted := posted + [Completion(id, result.value)];
      } else {
        externWaitHandler := Some(id);
      }
    }

    method DoReset(env: Env)
      requires Wf() && Ready(cfg, State()) && Lent(cfg, State()) && Enabled(State(), Event.Reset, env)
      modifies this, buffer
      ensures Wf() && State() == Step(cfg, old(State()), Event.Reset, env)
    {
      ResetFields();
      buffer.Reset();
    }

    method ResetFields()
      modifies this
      ensures State() == SessionSpec.DoReset(old(State())).(data := Initial().data.(buffer := buffer.filled))
      ensures readState == writeState == Idle
    {
      externState, internState := ExtReady, IntWork;
      readState, writeState, timerState := Idle, Idle, Idle;
      timerWaitCancelled, timerTurned, pendingOperations := false, false, 0;
      externWaitError := Success;
      readSize, writeLent, past := 0, [], NoPast.(issued := past.issued);
    }

    method DoStartExternStart(ghost id: nat, options: Error, env: Env) returns (error: Error)
      requires Wf() && Accounted(State())
      requires externState == ExtReady ==>
                 internState == IntWork && writeState != Halted && timerState != Halted
      modifies this, buffer
      ensures Wf()
      ensures Post(State(), id, error) == SessionSpec.DoStart(cfg, old(State()), id, options, env)
    {
      if externState != ExtReady {
        return InvalidState;
      }
      if options.Failed() {
        externState, internState := ExtStopped, IntStopped;
        readState, writeState, timerState := Halted, Halted, Halted;
        return options;
      }
      externState, past := ExtWork, past.(started := true, lastActivity := env.now);
      ContinueWork(env);
      return Success;
    }

    method DoStartExternStop(ghost id: nat, env: Env) returns (result: Option<Error>)
      requires Wf() && Accounted(State())
      modifies this, buffer
      ensures Wf()
      ensures result.Some? ==>
                Post(State(), id, result.value) == SessionSpec.DoStop(cfg, old(State()), id, env)
      ensures result.None? ==>
                State().(mail := State().mail.(stopHandler := Some(id)))
                  == SessionSpec.DoStop(cfg, old(State()), id, env)
    {
      if externState == ExtStopped || externState == ExtStop {
        return Some(InvalidState);
      }
      externState := ExtStop;
      CompleteExternWait(OperationAborted);
      if internState == IntWork {
        StartShutdown(OperationAborted, false, env);
      }
      if internState == IntStopped {
        externState := ExtStopped;
        return Some(Success);
      }
      return None;
    }

    /** Posting the answer, or parking the handler when there is none, serves the
        request. */
    method DoStartExternWait(ghost id: nat) returns (result: Option<Error>)
      ensures result.Some? ==> Post(State(), id, result.value) == SessionSpec.DoWait(State(), id)
      ensures result.None? ==>
                State().(mail := State().mail.(waitHandler := Some(id))) == SessionSpec.DoWait(State(), id)
    {
      if externState != ExtWork || externWaitHandler.Some? {
        return Some(InvalidState);
      }
      if internState != IntWork {
        return Some(externWaitError);
      }
      return None;
    }

    method CompleteExternStop(error: Error)
      modifies `posted, `externStopHandler
      ensures State() == old(State()).(mail := ExternRequests.CompleteExternStop(old(State()).mail, error))
    {
      if externStopHandler.Some? {
        posted := posted + [Completion(externStopHandler.value, error)];
        externStopHandler := None;
      }
    }

    method CompleteExternWait(error: Error)
      modifies `posted, `externWaitHandler, `externWaitError
      ensures State() == old(State()).(mail := ExternRequests.CompleteExternWait(old(State()).mail, error))
    {
      if !externWaitError.Failed() {
        externWaitError := error;
      }
      if externWaitHandler.Some? {
        posted := posted + [Completion(externWaitHandler.value, externWaitError)];
        externWaitHandler := None;
      }
    }

    // ----- completions

    /** The read operation has stored `bytes` through the blocks it was lent. */
    method HandleRead(error: Error, bytes: seq<Byte>, env: Env)
      requires Wf() && Ready(cfg, State()) && Lent(cfg, State()) && Enabled(State(), ReadDone(error, bytes), env)
      modifies this, buffer, buffer.data
      ensures Wf() && State() == Step(cfg, old(State()), ReadDone(error, bytes), env)
    {
      buffer.Store(readSize, Blocks(cfg.capacity, readFrom, readSize), bytes);
      match internState {
        case IntWork => HandleReadAtWork(error, |bytes|, bytes, env);
        case IntShutdown => HandleReadAtShutdown(error, |bytes|, bytes, env);
        case IntStop => HandleReadAtStop();
        case IntStopped => assert false;
      }
    }

    /** The write operation has taken `bytesTransferred` bytes from its blocks. */
    method HandleWrite(error: Error, bytesTransferred: nat, env: Env)
      requires Wf() && Ready(cfg, State()) && Lent(cfg, State()) && Enabled(State(), WriteDone(error, bytesTransferred), env)
      modifies this, buffer
      ensures Wf() && State() == Step(cfg, old(State()), WriteDone(error, bytesTransferred), env)
      ensures old(InBounds(buffer.data[..], Blocks(cfg.capacity, writeFrom, |writeLent|)))
      ensures old(Gather(buffer.data[..], Blocks(cfg.capacity, writeFrom, |writeLent|)))
           == old(writeLent)
    {
      LentBytes(buffer.data[..], buffer.filledStart, buffer.filled, buffer.nonfilledStart,
                buffer.nonfilled, |writeLent|);
      match internState {
        case IntWork => HandleWriteAtWork(error, bytesTransferred, env);
        case IntShutdown => HandleWriteAtShutdown(error, bytesTransferred, env);
        case IntStop => HandleWriteAtStop();
        case IntStopped => assert false;
      }
    }

    method HandleTimer(error: Error, env: Env)
      requires Wf() && Ready(cfg, State()) && Lent(cfg, State()) && Enabled(State(), TimerDone(error), env)
      modifies this
      ensures Wf() && State() == Step(cfg, old(State()), TimerDone(error), env)
    {
      match internState {
        case IntWork => HandleTimerAtWork(error, env);
        case IntShutdown => HandleTimerAtWork(error, env);
        case IntStop => HandleTimerAtStop();
        case IntStopped => assert false;
      }
    }

    method FailRead(error: Error, env: Env)
      requires Wf() && readState == Idle
      requires (internState == IntWork || internState == IntShutdown) && Accounted(State())
      modifies `internState, `externState, `readState, `writeState, `timerState,
               `timerWaitCancelled, `timerTurned, `past, `posted,
               `externWaitError, `externWaitHandler, `externStopHandler
      ensures Wf()
      ensures State() == SessionSpec.StartStop(old(State()).(read := Halted), error, env)
    {
      readState := Halted;
      StartStop(error, env);
    }

    method FailWrite(error: Error, env: Env)
      requires Wf() && writeState == Idle
      requires (internState == IntWork || internState == IntShutdown) && Accounted(State())
      modifies `internState, `externState, `readState, `writeState, `timerState,
               `timerWaitCancelled, `timerTurned, `past, `posted,
               `externWaitError, `externWaitHandler, `externStopHandler
      ensures Wf()
      ensures State() == SessionSpec.StartStop(old(State()).(write := Halted), error, env)
    {
      writeState := Halted;
      StartStop(error, env);
    }

    /** Unregisters the read and tells the timer to cancel. */
    method RegisterRead(env: Env) returns (timerError: Error)
      modifies `pendingOperations, `readState, `past, `timerWaitCancelled, `timerTurned
      ensures timerError == CancelError(old(State().clock), env.cancel)
      ensures State() == ReadRegistered(old(State()), env)
    {
      pendingOperations := pendingOperations - 1;
      readState := Idle;
      past := past.(lastActivity := env.now);
      timerError := CancelTimerWait(env.cancel);
    }

    method RegisterWrite(env: Env) returns (timerError: Error)
      modifies `pendingOperations, `writeState, `past, `timerWaitCancelled, `timerTurned
      ensures timerError == CancelError(old(State().clock), env.cancel)
      ensures State() == WriteRegistered(old(State()), env)
    {
      pendingOperations := pendingOperations - 1;
      writeState := Idle;
      past := past.(lastActivity := env.now);
      timerError := CancelTimerWait(env.cancel);
    }

    /** The length_error of the buffer never happens. */
    method AcceptRead(bytesTransferred: nat, ghost bytes: seq<Byte>)
      requires Wf() && readState != InProgress
      requires bytesTransferred <= buffer.nonfilledSize
      requires buffer.nonfilled[..bytesTransferred] == bytes
      modifies `past, buffer
      ensures Wf()
      ensures State() == old(State()).(data := Take(old(State().data), bytes))
    {
      var ok := buffer.Consume(bytesTransferred);
      assert ok;
      past := past.(received := past.received + bytes);
    }

    method AcceptWrite(bytesTransferred: nat)
      requires Wf() && writeState != InProgress
      requires bytesTransferred <= |writeLent| && bytesTransferred <= buffer.filledSize
      modifies `past, buffer
      ensures Wf()
      ensures State() == old(State()).(data := Give(old(State().data), bytesTransferred))
    {
      var ok := buffer.Commit(bytesTransferred);
      assert ok;
      past := past.(written := past.written + writeLent[..bytesTransferred]);
    }

    method HandleReadAtWork(error: Error, bytesTransferred: nat, ghost bytes: seq<Byte>, env: Env)
      requires Wf() && bytesTransferred == |bytes| && bytesTransferred <= buffer.nonfilledSize
      requires buffer.nonfilled[..bytesTransferred] == bytes
      requires internState == IntWork && readState == InProgress
      requires writeState != Halted && timerState != Halted && Accounted(State())
      modifies this, buffer
      ensures Wf()
      ensures State() == SessionSpec.HandleReadAtWork(cfg, old(State()), error, bytes, env)
    {
      var timerError := RegisterRead(env);
      if timerError.Failed() {
        FailRead(timerError, env);
        return;
      }
      if error.Failed() && error != Eof {
        FailRead(error, env);
        return;
      }
      AcceptRead(bytesTransferred, bytes);
      if error == Eof {
        readState := Halted;
        StartShutdown(error, true, env);
        return;
      }
      ContinueWork(env);
    }

    method HandleReadAtShutdown(error: Error, bytesTransferred: nat, ghost bytes: seq<Byte>, env: Env)
      requires Wf() && bytesTransferred == |bytes| && bytesTransferred <= buffer.nonfilledSize
      requires buffer.nonfilled[..bytesTransferred] == bytes
      requires internState == IntShutdown && readState == InProgress && Accounted(State())
      modifies this, buffer
      ensures Wf()
      ensures State() == SessionSpec.HandleReadAtShutdown(cfg, old(State()), error, bytes, env)
    {
      var timerError := RegisterRead(env);
      if timerError.Failed() {
        FailRead(timerError, env);
        return;
      }
      if error.Failed() && error != Eof {
        FailRead(error, env);
        return;
      }
      AcceptRead(bytesTransferred, bytes);
      if error == Eof {
        readState := Halted;
      }
      ContinueShutdown(true, env);
    }

    method HandleReadAtStop()
      requires internState == IntStop && readState == InProgress
      requires Accounted(State()) && writeState != Idle && timerState != Idle
      modifies `internState, `externState, `readState, `writeState, `timerState, `pendingOperations,
               `timerWaitCancelled, `timerTurned, `past, `posted,
               `externWaitError, `externWaitHandler, `externStopHandler
      ensures State() == SessionSpec.HandleReadAtStop(old(State()))
    {
      pendingOperations := pendingOperations - 1;
      readState := Halted;
      ContinueStop();
    }

    method HandleWriteAtWork(error: Error, bytesTransferred: nat, env: Env)
      requires Wf() && bytesTransferred <= |writeLent|
      requires internState == IntWork && writeState == InProgress
      requires timerState != Halted && Accounted(State())
      modifies this, buffer
      ensures Wf()
      ensures State() == SessionSpec.HandleWriteAtWork(cfg, old(State()), error, bytesTransferred, env)
    {
      var timerError := RegisterWrite(env);
      if timerError.Failed() {
        FailWrite(timerError, env);
        return;
      }
      if error.Failed() {
        FailWrite(error, env);
        return;
      }
      AcceptWrite(bytesTransferred);
      ContinueWork(env);
    }

    method HandleWriteAtShutdown(error: Error, bytesTransferred: nat, env: Env)
      requires Wf() && bytesTransferred <= |writeLent|
      requires internState == IntShutdown && writeState == InProgress && Accounted(State())
      modifies this, buffer
      ensures Wf()
      ensures State() == SessionSpec.HandleWriteAtShutdown(cfg, old(State()), error, bytesTransferred, env)
    {
      var timerError := RegisterWrite(env);
      if timerError.Failed() {
        FailWrite(timerError, env);
        return;
      }
      if error.Failed() {
        FailWrite(error, env);
        return;
      }
      AcceptWrite(bytesTransferred);
      ContinueShutdown(true, env);
    }

    method HandleWriteAtStop()
      requires internState == IntStop && writeState == InProgress
      requires Accounted(State()) && readState != Idle && timerState != Idle
      modifies `internState, `externState, `readState, `writeState, `timerState, `pendingOperations,
               `timerWaitCancelled, `timerTurned, `past, `posted,
               `externWaitError, `externWaitHandler, `externStopHandler
      ensures State() == SessionSpec.HandleWriteAtStop(old(State()))
    {
      pendingOperations := pendingOperations - 1;
      writeState := Halted;
      ContinueStop();
    }

    method HandleTimerAtWork(error: Error, env: Env)
      requires (internState == IntWork || internState == IntShutdown)
      requires timerState == InProgress && Accounted(State())
      modifies `internState, `externState, `readState, `writeState, `timerState, `pendingOperations,
               `timerWaitCancelled, `timerTurned, `past, `posted,
               `externWaitError, `externWaitHandler, `externStopHandler
      ensures readState == old(readState) || readState == Halt(old(readState))
      ensures writeState == old(writeState) || writeState == Halt(old(writeState))
      ensures State() == SessionSpec.HandleTimerAtWork(old(State()), error, env)
    {
      pendingOperations := pendingOperations - 1;
      timerState := Idle;
      if error.Failed() && error != TimerAborted {
        timerState := Halted;
        StartStop(error, env);
        return;
      }
      if timerWaitCancelled {
        if timerTurned {
          StartTimerWait();
        }
        return;
      }
      timerState := Halted;
      StartStop(InactivityTimeout, env);
    }

    method HandleTimerAtStop()
      requires internState == IntStop && timerState == InProgress
      requires Accounted(State()) && readState != Idle && writeState != Idle
      modifies `internState, `externState, `readState, `writeState, `timerState, `pendingOperations,
               `timerWaitCancelled, `timerTurned, `past, `posted,
               `externWaitError, `externWaitHandler, `externStopHandler
      ensures readState == old(readState) || readState == Halt(old(readState))
      ensures writeState == old(writeState) || writeState == Halt(old(writeState))
      ensures State() == SessionSpec.HandleTimerAtStop(old(State()))
    {
      pendingOperations := pendingOperations - 1;
      timerState := Halted;
      ContinueStop();
    }

    // ----- work and shutdown

    method ContinueWork(env: Env)
      requires Wf() && internState == IntWork && writeState != Halted && timerState != Halted
      requires Accounted(State())
      modifies this
      ensures Wf() && State() == SessionSpec.ContinueWork(cfg, old(State()), env)
    {
      TryRead();
      TryWrite();
      ContinueTimerWait(env);
    }

    method TryRead()
      requires Wf()
      modifies `readFrom, `readSize, `pendingOperations, `readState
      ensures Wf() && State() == ReadTried(cfg, old(State()))
    {
      if readState == Idle {
        var readBuffers := buffer.Prepared(cfg.maxTransfer);
        if readBuffers != [] {
          StartSocketRead(readBuffers, Min(buffer.nonfilledSize, cfg.maxTransfer));
        }
      }
    }

    method TryWrite()
      requires Wf()
      modifies `writeFrom, `writeLent, `pendingOperations, `writeState
      ensures Wf() && State() == WriteTried(cfg, old(State()))
    {
      if writeState == Idle {
        var writeBuffers := buffer.Data(cfg.maxTransfer);
        if writeBuffers != [] {
          StartSocketWrite(writeBuffers, Min(buffer.filledSize, cfg.maxTransfer));
        }
      }
    }

    method ContinueTimerWait(env: Env)
      requires (internState == IntWork || internState == IntShutdown) && Accounted(State())
      modifies `internState, `externState, `readState, `writeState, `timerState, `pendingOperations,
               `timerWaitCancelled, `timerTurned, `past, `posted,
               `externWaitError, `externWaitHandler, `externStopHandler
      ensures readState == old(readState) || readState == Halt(old(readState))
      ensures writeState == old(writeState) || writeState == Halt(old(writeState))
      ensures State() == SessionSpec.ContinueTimerWait(cfg, old(State()), env)
    {
      if cfg.timeout.None? {
        return;
      }
      var hasIoActivity := readState == InProgress || writeState == InProgress;
      if hasIoActivity && !timerTurned {
        if env.expires.Failed() {
          StartStop(env.expires, env);
          return;
        }
        past := past.(deadline := env.now + cfg.timeout.value,
                      aborted := past.aborted || timerState == InProgress);
        timerWaitCancelled := true;
        timerTurned := true;
        if timerState == Idle {
          StartTimerWait();
        }
      }
    }

    method ContinueShutdown(restart: bool, env: Env)
      requires Wf() && internState == IntShutdown && Accounted(State())
      modifies this, buffer
      ensures Wf() && State() == SessionSpec.ContinueShutdown(cfg, old(State()), restart, env)
    {
      match readState
      case Idle => ContinueShutdownAtReadWait(restart, env);
      case InProgress => ContinueShutdownAtReadInProgress(restart, env);
      case Halted => ContinueShutdownAtReadStopped(restart, env);
    }

    method ContinueShutdownAtReadWait(restart: bool, env: Env)
      requires Wf() && internState == IntShutdown && readState == Idle && Accounted(State())
      modifies this, buffer
      ensures Wf() && State() == SessionSpec.ContinueShutdownAtReadWait(cfg, old(State()), restart, env)
    {
      if writeState == Idle {
        if env.shutdown.Failed() {
          StartStop(env.shutdown, env);
          return;
        }
        writeState := Halted;
        past := past.(halfClose := ClosedEarly);
      }
      RestartRead();
      if restart {
        ContinueTimerWait(env);
      }
    }

    method RestartRead()
      requires Wf() && readState != InProgress
      modifies `readFrom, `readSize, `pendingOperations, `readState, `past, buffer
      ensures Wf() && State() == ReadRestarted(cfg, old(State()))
    {
      if writeState == Halted {
        buffer.Reset();
        past := past.(discarded := true);
        var readBuffers := buffer.Prepared(cfg.capacity);
        assert readBuffers != [];
        StartSocketRead(readBuffers, cfg.capacity);
      } else {
        var readBuffers := buffer.Prepared(cfg.capacity);
        if readBuffers != [] {
          StartSocketRead(readBuffers, buffer.nonfilledSize);
        }
      }
    }

    method ContinueShutdownAtReadInProgress(restart: bool, env: Env)
      requires Wf() && internState == IntShutdown && readState == InProgress && Accounted(State())
      modifies this
      ensures Wf()
      ensures State() == SessionSpec.ContinueShutdownAtReadInProgress(cfg, old(State()), restart, env)
    {
      if writeState == Idle {
        if env.shutdown.Failed() {
          StartStop(env.shutdown, env);
          return;
        }
        writeState := Halted;
        past := past.(halfClose := ClosedEarly);
      }
      if restart {
        ContinueTimerWait(env);
      }
    }

    method ContinueShutdownAtReadStopped(restart: bool, env: Env)
      requires Wf() && internState == IntShutdown && readState == Halted && Accounted(State())
      modifies this
      ensures Wf()
      ensures State() == SessionSpec.ContinueShutdownAtReadStopped(cfg, old(State()), restart, env)
    {
      if writeState == Idle {
        var writeBuffers := buffer.Data(cfg.maxTransfer);
        if writeBuffers != [] {
          StartSocketWrite(writeBuffers, Min(buffer.filledSize, cfg.maxTransfer));
        } else {
          // the result of the socket's shutdown is ignored here
          writeState := Halted;
          past := past.(halfClose := ClosedAfterEof);
        }
      }
      if writeState == Halted {
        StartStop(Success, env);
        return;
      }
      if restart {
        ContinueTimerWait(env);
      }
    }

    method StartShutdown(error: Error, restart: bool, env: Env)
      requires Wf() && internState == IntWork && Accounted(State())
      modifies this, buffer
      ensures Wf() && State() == SessionSpec.StartShutdown(cfg, old(State()), error, restart, env)
    {
      ghost var s1 := State().(intern := IntShutdown);
      internState := IntShutdown;
      assert State() == s1;
      if externState == ExtWork {
        CompleteExternWait(error);
      }
      assert State() == if s1.extern.ExtWork? then s1.(mail := ExternRequests.CompleteExternWait(s1.mail, error)) else s1;
      ContinueShutdown(restart, env);
    }

    // ----- stop

    method ContinueStop()
      requires internState == IntStop
      requires pendingOperations == 0 ==> readState == Halted && writeState == Halted && timerState == Halted
      modifies `internState, `externState, `posted, `externStopHandler
      ensures State() == SessionSpec.ContinueStop(old(State()))
    {
      if pendingOperations == 0 {
        internState := IntStopped;
        if externState == ExtStop {
          externState := ExtStopped;
          CompleteExternStop(Success);
        }
      }
    }

    method StartStop(cause: Error, env: Env)
      requires (internState == IntWork || internState == IntShutdown) && Accounted(State())
      modifies `internState, `externState, `readState, `writeState, `timerState,
               `timerWaitCancelled, `timerTurned, `past, `posted,
               `externWaitError, `externWaitHandler, `externStopHandler
      ensures readState == Halt(old(readState)) && writeState == Halt(old(writeState))
      ensures State() == SessionSpec.StartStop(old(State()), cause, env)
    {
      var error := BeginStop(cause, env);
      if externState == ExtWork {
        CompleteExternWait(error);
      }
      ContinueStop();
    }

    /** Closes the socket, cancels the timer and halts what is idle. */
    method BeginStop(cause: Error, env: Env) returns (error: Error)
      modifies `internState, `timerWaitCancelled, `timerTurned, `past, `readState, `writeState, `timerState
      ensures error == StopError(cause, env.close, CancelError(old(State()).clock, env.stopCancel))
      ensures State() == StopBegun(old(State()), env)
    {
      error := cause;
      internState := IntStop;
      if env.close.Failed() && !error.Failed() {
        error := env.close;
      }
      var timerError := CancelTimerWait(env.stopCancel);
      if timerError.Failed() && !error.Failed() {
        error := timerError;
      }
      HaltIdle();
    }

    /** Halts the activities that are already able to stop. */
    method HaltIdle()
      modifies `readState, `writeState, `timerState
      ensures readState == Halt(old(readState)) && writeState == Halt(old(writeState))
      ensures timerState == Halt(old(timerState))
    {
      if readState == Idle {
        readState := Halted;
      }
      if writeState == Idle {
        writeState := Halted;
      }
      if timerState == Idle {
        timerState := Halted;
      }
    }

    // ----- sockets and timer

    method StartSocketRead(buffers: seq<Block>, size: nat)
      requires Wf() && readState != InProgress && size <= buffer.nonfilledSize
      requires buffers == Blocks(cfg.capacity, buffer.nonfilledStart, size)
      modifies `readFrom, `readSize, `pendingOperations, `readState
      ensures Wf() && State() == SessionSpec.StartRead(old(State()), size)
    {
      readFrom, readSize := buffer.nonfilledStart, size;
      pendingOperations := pendingOperations + 1;
      readState := InProgress;
    }

    method StartSocketWrite(buffers: seq<Block>, ghost size: nat)
      requires Wf() && writeState != InProgress && size <= buffer.filledSize
      requires buffers == Blocks(cfg.capacity, buffer.filledStart, size)
      modifies `writeFrom, `writeLent, `pendingOperations, `writeState
      ensures Wf() && State() == SessionSpec.StartWrite(old(State()), size)
    {
      writeFrom, writeLent := buffer.filledStart, buffer.filled[..size];
      pendingOperations := pendingOperations + 1;
      writeState := InProgress;
    }

    method StartTimerWait()
      requires timerState == Idle
      modifies `pendingOperations, `timerState, `timerWaitCancelled, `past
      ensures State() == SessionSpec.StartTimerWait(old(State()))
    {
      past := past.(armedFor := past.deadline, aborted := false);
      pendingOperations := pendingOperations + 1;
      timerState := InProgress;
      timerWaitCancelled := false;
    }

    method CancelTimerWait(answer: Error) returns (error: Error)
      modifies `timerWaitCancelled, `timerTurned, `past
      ensures error == CancelError(old(State()).clock, answer)
      ensures State() == old(State()).(clock := SessionSpec.CancelTimerWait(old(State()).clock, answer))
    {
      error := Success;
      if !timerWaitCancelled && timerState == InProgress {
        error := answer;
        past := past.(aborted := past.aborted || !error.Failed());
      }
      if !error.Failed() {
        timerWaitCancelled := true;
        timerTurned := false;
      }
    }
  }
}

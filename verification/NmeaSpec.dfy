/** The cyclic reader of NMEA frames as a state machine on values: a serial port
    is read up to the next mark, frames go into a bounded queue that drops its
    oldest, and readers take them from there. */
module NmeaSpec {
  import opened Errors
  import opened ExternRequests
  import opened NmeaFraming

  datatype Config = Config(capacity: nat, bufferSize: nat, marks: Marks)
  {
    predicate Valid() {
      capacity >= 1 && bufferSize >= 512 && |marks.head| <= bufferSize && |marks.tail| <= bufferSize
    }
  }

  /** The read of the port: none, or one that ends at the mark of its mode. */
  datatype Port = PortIdle | Reading(mode: Mode)

  /** A parked reader and how many frames it has room for. */
  datatype Reader = Reader(id: nat, room: nat)

  /** A posted handler: its error, the frames or the number of bytes it is told. */
  datatype Answer = Answer(id: nat, error: Error, frames: seq<string>, count: nat)

  /** Every frame cut from the stream, every frame handed out, how many frames
      the queue dropped, the bytes since reading last began, and how many frames
      there were then. */
  datatype Past = Past(parsed: seq<string>, delivered: seq<string>, lost: nat, stream: string, base: nat)

  datatype State = State(extern: Extern, port: Port, writing: Option<nat>, queue: seq<string>, readError: Error,
                         stopError: Error, buffer: string, parked: Option<Reader>, stop: Option<nat>,
                         posted: seq<Answer>, issued: set<nat>, past: Past)
  {
    function Post(id: nat, error: Error): State { this.(posted := posted + [Answer(id, error, [], 0)]) }
  }

  datatype Event =
    | Start(id: nat)
    | Stop(id: nat, closed: Error)
    | Read(id: nat, room: nat)
    | Write(id: nat)
    | HeadRead(error: Error, arrived: string)
    | TailRead(error: Error, arrived: string)
    | Written(handler: nat, error: Error, count: nat)
    | Reset

  function Initial(): State {
    State(ExtReady, PortIdle, None, [], Success, Success, "", None, None, [], {}, Past([], [], 0, "", 0))
  }

  // ----- frames

  /** A new frame; a full queue drops its oldest one. */
  function Push(cfg: Config, s: State, f: string): State {
    var full := |s.queue| == cfg.capacity && s.queue != [];
    s.(queue := if full then s.queue[1..] + [f] else s.queue + [f],
       past := s.past.(parsed := s.past.parsed + [f], lost := s.past.lost + if full then 1 else 0))
  }

  function Min(a: nat, b: nat): nat { if a <= b then a else b }

  /** As many of the oldest frames as the reader has room for. */
  function Deliver(s: State, r: Reader): State {
    var n := Min(r.room, |s.queue|);
    s.(queue := s.queue[n..], posted := s.posted + [Answer(r.id, Success, s.queue[..n], n)],
       past := s.past.(delivered := s.past.delivered + s.queue[..n]))
  }

  // ----- requests

  function StartReading(s: State): State {
    s.(port := Reading(InGarbage), past := s.past.(stream := s.buffer, base := |s.past.parsed|))
  }

  function DoStart(s: State, id: nat): State {
    if !s.extern.ExtReady? then s.Post(id, InvalidState)
    else
      var r := s.(extern := ExtWork);
      (if r.port.PortIdle? then StartReading(r) else r).Post(id, Success)
  }

  function AbortReader(s: State): State {
    if s.parked.Some? then s.Post(s.parked.value.id, OperationAborted).(parked := None) else s
  }

  function DoStop(s: State, id: nat, closed: Error): State {
    if s.extern.ExtStopped? || s.extern.ExtStop? then s.Post(id, InvalidState)
    else
      var r := AbortReader(s.(extern := ExtStop)).(stopError := closed);
      if r.writing.None? && r.port.PortIdle? then r.(extern := ExtStopped).Post(id, closed)
      else r.(stop := Some(id))
  }

  function DoRead(s: State, id: nat, room: nat): State {
    if !s.extern.ExtWork? || s.parked.Some? then s.Post(id, InvalidState)
    else if s.queue != [] then Deliver(s, Reader(id, room))
    else if s.readError.Failed() then s.Post(id, s.readError).(readError := Success)
    else (if s.port.PortIdle? then StartReading(s) else s).(parked := Some(Reader(id, room)))
  }

  function DoWrite(s: State, id: nat): State {
    if !s.extern.ExtWork? || s.writing.Some? then s.Post(id, InvalidState) else s.(writing := Some(id))
  }

  function DoReset(s: State): State {
    s.(extern := ExtReady, queue := [], readError := Success, buffer := "", past := Initial().past)
  }

  // ----- completions

  function CompleteStop(s: State): State {
    var r := s.(extern := ExtStopped);
    if r.stop.Some? then r.Post(r.stop.value, r.stopError).(stop := None) else r
  }

  function StopIfQuiet(s: State): State {
    if s.writing.None? && s.port.PortIdle? then CompleteStop(s) else s
  }

  function FailRead(s: State, error: Error): State {
    if s.parked.Some? then s.Post(s.parked.value.id, error).(parked := None) else s.(readError := error)
  }

  /** The read of the port has ended, with what it added to the buffer. */
  function Arrived(s: State, arrived: string): State {
    s.(port := PortIdle, buffer := s.buffer + arrived, past := s.past.(stream := s.past.stream + arrived))
  }

  function HeadFound(cfg: Config, s: State): State
    requires First(s.buffer, cfg.marks.head).Some?
  {
    s.(buffer := s.buffer[First(s.buffer, cfg.marks.head).value..], port := Reading(InFrame))
  }

  function HandleHead(cfg: Config, s: State, error: Error, arrived: string): State
    requires !error.Failed() ==> First(s.buffer + arrived, cfg.marks.head).Some?
  {
    var r := Arrived(s, arrived);
    if r.extern.ExtStop? then StopIfQuiet(r)
    else if error.Failed() then FailRead(r, error)
    else HeadFound(cfg, r)
  }

  function TailFound(cfg: Config, s: State): State
    requires First(s.buffer, cfg.marks.tail).Some?
  {
    var n := First(s.buffer, cfg.marks.tail).value;
    var f := s.buffer[..n - |cfg.marks.tail|];
    var r := Push(cfg, s.(buffer := s.buffer[n..], port := Reading(InGarbage)), f);
    if r.parked.Some? then Deliver(r, r.parked.value).(parked := None) else r
  }

  function HandleTail(cfg: Config, s: State, error: Error, arrived: string): State
    requires !error.Failed() ==> First(s.buffer + arrived, cfg.marks.tail).Some?
  {
    var r := Arrived(s, arrived);
    if r.extern.ExtStop? then StopIfQuiet(r)
    else if error.Failed() then FailRead(r, error)
    else TailFound(cfg, r)
  }

  function HandleWrite(s: State, error: Error, count: nat): State
    requires s.writing.Some?
  {
    var r := s.(writing := None, posted := s.posted + [Answer(s.writing.value, error, [], count)]);
    if r.extern.ExtStop? then StopIfQuiet(r) else r
  }

  // ----- one step

  /** When the environment may deliver an event.  A read of the port succeeds
      when its mark is in the buffer, and never overfills the buffer.  The reader
      may be reset while nothing is in flight on the port. */
  predicate Enabled(cfg: Config, s: State, event: Event) {
    match event
    case Start(id) => id !in s.issued
    case Stop(id, _) => id !in s.issued
    case Read(id, _) => id !in s.issued
    case Write(id) => id !in s.issued
    case HeadRead(error, arrived) =>
      && s.port == Reading(InGarbage) && |s.buffer| + |arrived| <= cfg.bufferSize
      && (!error.Failed() ==> First(s.buffer + arrived, cfg.marks.head).Some?)
    case TailRead(error, arrived) =>
      && s.port == Reading(InFrame) && |s.buffer| + |arrived| <= cfg.bufferSize
      && (!error.Failed() ==> First(s.buffer + arrived, cfg.marks.tail).Some?)
    case Written(handler, _, _) => s.writing == Some(handler)
    case Reset => s.port.PortIdle? && s.writing.None?
  }

  function Issue(s: State, id: nat): State { s.(issued := s.issued + {id}) }

  function Step(cfg: Config, s: State, event: Event): State
    requires Enabled(cfg, s, event)
  {
    match event
    case Start(id) => DoStart(Issue(s, id), id)
    case Stop(id, closed) => DoStop(Issue(s, id), id, closed)
    case Read(id, room) => DoRead(Issue(s, id), id, room)
    case Write(id) => DoWrite(Issue(s, id), id)
    case HeadRead(error, arrived) => HandleHead(cfg, s, error, arrived)
    case TailRead(error, arrived) => HandleTail(cfg, s, error, arrived)
    case Written(_, error, count) => HandleWrite(s, error, count)
    case Reset => DoReset(s)
  }
}

/** What the NMEA reader tells: every handler it posts, with its error, its frames
    and its count, event by event and over runs. */
module NmeaAnswers {
  import opened Errors
  import opened NmeaFraming
  import opened NmeaSpec
  import opened NmeaProofs

  // ----- one step

  predicate Quiet(s: State) { s.writing.None? && s.port.PortIdle? }

  function Plain(id: nat, error: Error): Answer { Answer(id, error, [], 0) }

  /** A parked reader is told an error and gets no frame. */
  function ReaderTold(s: State, error: Error): seq<Answer> {
    if s.parked.Some? then [Plain(s.parked.value.id, error)] else []
  }

  /** A parked stop is told how closing the port ended. */
  function StopTold(s: State): seq<Answer> {
    if s.stop.Some? then [Plain(s.stop.value, s.stopError)] else []
  }

  /** The oldest frames, as many as there is room for. */
  function ReadTold(id: nat, frames: seq<string>, room: nat): Answer {
    if room < |frames| then Answer(id, Success, frames[..room], room) else Answer(id, Success, frames, |frames|)
  }

  /** The text before the first tail in the buffer. */
  function FrameCut(cfg: Config, buffer: string): string
    requires First(buffer, cfg.marks.tail).Some?
  {
    buffer[..First(buffer, cfg.marks.tail).value - |cfg.marks.tail|]
  }

  /** The handlers posted in a step, in order. */
  function Told(cfg: Config, s: State, event: Event): seq<Answer>
    requires Enabled(cfg, s, event)
  {
    match event
    case Start(id) => [Plain(id, if s.extern.ExtReady? then Success else InvalidState)]
    case Stop(id, closed) =>
      if s.extern.ExtStop? || s.extern.ExtStopped? then [Plain(id, InvalidState)]
      else ReaderTold(s, OperationAborted) + if Quiet(s) then [Plain(id, closed)] else []
    case Read(id, room) =>
      if !s.extern.ExtWork? || s.parked.Some? then [Plain(id, InvalidState)]
      else if s.queue != [] then [ReadTold(id, s.queue, room)]
      else if s.readError.Failed() then [Plain(id, s.readError)]
      else []
    case Write(id) => if !s.extern.ExtWork? || s.writing.Some? then [Plain(id, InvalidState)] else []
    case HeadRead(error, _) =>
      if s.extern.ExtStop? then (if s.writing.None? then StopTold(s) else [])
      else if error.Failed() then ReaderTold(s, error)
      else []
    case TailRead(error, arrived) =>
      if s.extern.ExtStop? then (if s.writing.None? then StopTold(s) else [])
      else if error.Failed() then ReaderTold(s, error)
      else if s.parked.Some? then
        [ReadTold(s.parked.value.id, [FrameCut(cfg, s.buffer + arrived)], s.parked.value.room)]
      else []
    case Written(handler, error, count) =>
      [Answer(handler, error, [], count)] + if s.extern.ExtStop? && s.port.PortIdle? then StopTold(s) else []
    case Reset => []
  }

  /** A frame that comes while a reader is parked goes to this reader, if it has
      room for one. */
  lemma TailTold(cfg: Config, s: State, error: Error, arrived: string)
    requires Inv(cfg, s) && Enabled(cfg, s, TailRead(error, arrived)) && !s.extern.ExtStop? && !error.Failed()
    ensures HandleTail(cfg, s, error, arrived).posted == s.posted + Told(cfg, s, TailRead(error, arrived))
  {
    hide First, Queued, Framed;
    var f := FrameCut(cfg, s.buffer + arrived);
    assert [] + [f] == [f] && [f][..1] == [f];
  }

  lemma StopTells(s: State, id: nat, closed: Error)
    requires (s.stop.Some? <==> s.extern.ExtStop?)
    ensures DoStop(s, id, closed).posted
         == s.posted + if s.extern.ExtStop? || s.extern.ExtStopped? then [Plain(id, InvalidState)]
                       else ReaderTold(s, OperationAborted) + if Quiet(s) then [Plain(id, closed)] else []
  {
    if s.parked.Some? {
      var a, b := [Plain(s.parked.value.id, OperationAborted)], [Plain(id, closed)];
      assert (s.posted + a) + b == s.posted + (a + b);
    }
    assert [] + [Plain(id, closed)] == [Plain(id, closed)];
  }

  lemma ReadTells(s: State, id: nat, room: nat)
    requires s.queue != [] && s.extern.ExtWork? && s.parked.None?
    ensures DoRead(s, id, room).posted == s.posted + [ReadTold(id, s.queue, room)]
  {
    assert s.queue[..|s.queue|] == s.queue;
  }

  lemma WrittenTells(s: State, error: Error, count: nat)
    requires s.writing.Some?
    ensures HandleWrite(s, error, count).posted
         == s.posted + ([Answer(s.writing.value, error, [], count)]
                        + if s.extern.ExtStop? && s.port.PortIdle? then StopTold(s) else [])
  {
    var a := [Answer(s.writing.value, error, [], count)];
    assert (s.posted + a) + StopTold(s) == s.posted + (a + StopTold(s));
    assert a + [] == a;
  }

  /** Every step posts exactly these handlers. */
  lemma StepTells(cfg: Config, s: State, event: Event)
    requires Inv(cfg, s) && Enabled(cfg, s, event)
    ensures Step(cfg, s, event).posted == s.posted + Told(cfg, s, event)
  {
    hide First, Queued, Framed, DoStop, HandleWrite, TailFound;
    assert s.posted + [] == s.posted;
    match event
    case Stop(id, closed) => StopTells(Issue(s, id), id, closed);
    case Read(id, room) =>
      if s.queue != [] && s.extern.ExtWork? && s.parked.None? {
        ReadTells(Issue(s, id), id, room);
      }
    case Written(_, error, count) => WrittenTells(s, error, count);
    case TailRead(error, arrived) =>
      if !s.extern.ExtStop? && !error.Failed() {
        TailTold(cfg, s, error, arrived);
      }
    case _ =>
  }

  // ----- what is kept for later

  /** A failed read that no reader waits for is told to the next one; what closing
      the port came to is told when the stop completes. */
  function ErrorKept(s: State, event: Event): Error {
    if event.Reset? then Success
    else if event.Read? && s.extern.ExtWork? && s.parked.None? && s.queue == [] then Success
    else if (event.HeadRead? || event.TailRead?) && !s.extern.ExtStop? && event.error.Failed() && s.parked.None? then
      event.error
    else s.readError
  }

  predicate CutsFrame(s: State, event: Event) { event.TailRead? && !s.extern.ExtStop? && !event.error.Failed() }

  /** A full queue loses one frame when another one is cut, and no other one is
      ever lost. */
  lemma StepKeepsErrors(cfg: Config, s: State, event: Event)
    requires Inv(cfg, s) && Enabled(cfg, s, event)
    ensures var r := Step(cfg, s, event);
            && r.readError == ErrorKept(s, event)
            && r.stopError == (if event.Stop? && (s.extern.ExtReady? || s.extern.ExtWork?) then event.closed else s.stopError)
            && (!event.Reset? ==>
                  r.past.lost == s.past.lost + if CutsFrame(s, event) && |s.queue| == cfg.capacity then 1 else 0)
  {
    hide First, Queued, Framed;
  }

  /** A reset, with nothing in flight on the port, leaves a reader as if new, but for
      what it has told. */
  lemma ResetRenews(cfg: Config, s: State)
    requires Inv(cfg, s) && Enabled(cfg, s, Event.Reset)
    ensures Step(cfg, s, Event.Reset) == Initial().(stopError := s.stopError, posted := s.posted, issued := s.issued)
  {
    hide First, Queued, Framed;
  }

  // ----- over runs

  /** The frames handed out with a sequence of answers. */
  function Handed(posted: seq<Answer>): seq<string> {
    if posted == [] then [] else Handed(posted[..|posted| - 1]) + posted[|posted| - 1].frames
  }

  lemma {:induction false} HandedJoins(a: seq<Answer>, b: seq<Answer>)
    ensures Handed(a + b) == Handed(a) + Handed(b)
  {
    if b == [] {
      assert a + b == a && Handed(a) + [] == Handed(a);
    } else {
      var n := |b| - 1;
      HandedJoins(a, b[..n]);
      assert (a + b)[..|a + b| - 1] == a + b[..n];
      assert (Handed(a) + Handed(b[..n])) + b[n].frames == Handed(a) + (Handed(b[..n]) + b[n].frames);
    }
  }

  lemma HandedOne(a: Answer)
    ensures Handed([a]) == a.frames
  {
    assert [a][..0] == [] && Handed([]) + a.frames == a.frames;
  }

  lemma {:induction false} HandedNone(posted: seq<Answer>)
    requires forall i | 0 <= i < |posted| :: posted[i].frames == []
    ensures Handed(posted) == []
  {
    if posted != [] {
      HandedNone(posted[..|posted| - 1]);
    }
  }

  /** The frames a step hands out: to the request itself, or to a parked reader. */
  predicate HandsOut(s: State, event: Event) {
    || (event.Read? && s.extern.ExtWork? && s.parked.None? && s.queue != [])
    || (CutsFrame(s, event) && s.parked.Some?)
  }

  lemma ToldNoFrames(cfg: Config, s: State, event: Event)
    requires Enabled(cfg, s, event) && !HandsOut(s, event)
    ensures Handed(Told(cfg, s, event)) == []
  {
    hide First;
    HandedNone(Told(cfg, s, event));
  }

  lemma DeliversNothing(cfg: Config, s: State, event: Event)
    requires Inv(cfg, s) && Enabled(cfg, s, event) && !HandsOut(s, event) && !event.Reset?
    ensures Step(cfg, s, event).past.delivered == s.past.delivered
  {
    hide First, Queued, Framed;
  }

  lemma Delivers(cfg: Config, s: State, event: Event)
    requires Inv(cfg, s) && Enabled(cfg, s, event) && HandsOut(s, event)
    ensures |Told(cfg, s, event)| == 1
    ensures Step(cfg, s, event).past.delivered == s.past.delivered + Told(cfg, s, event)[0].frames
  {
    hide First, Queued, Framed;
    if event.Read? {
      assert s.queue[..|s.queue|] == s.queue;
    } else {
      var f := FrameCut(cfg, s.buffer + event.arrived);
      assert [] + [f] == [f] && [f][..1] == [f];
    }
  }

  /** What a step takes off the queue is what it tells. */
  lemma StepHands(cfg: Config, s: State, event: Event)
    requires Inv(cfg, s) && Enabled(cfg, s, event) && !event.Reset?
    ensures Step(cfg, s, event).past.delivered == s.past.delivered + Handed(Told(cfg, s, event))
  {
    hide First, Inv, Step, HandsOut, Told;
    if HandsOut(s, event) {
      Delivers(cfg, s, event);
      HandedOne(Told(cfg, s, event)[0]);
      assert Told(cfg, s, event) == [Told(cfg, s, event)[0]];
    } else {
      ToldNoFrames(cfg, s, event);
      DeliversNothing(cfg, s, event);
      assert s.past.delivered + [] == s.past.delivered;
    }
  }

  /** The room of each read request. */
  function Rooms(rooms: map<nat, nat>, event: Event): map<nat, nat> {
    if event.Read? then rooms[event.id := event.room] else rooms
  }

  /** A read is told an error and gets nothing, or is told success and how many
      frames it gets, no more than it has room for; nobody else gets a frame. */
  predicate Honest(a: Answer, rooms: map<nat, nat>) {
    if a.id !in rooms then a.frames == []
    else if a.error.Failed() then a.frames == [] && a.count == 0
    else a.count == |a.frames| <= rooms[a.id]
  }

  predicate AllHonest(posted: seq<Answer>, rooms: map<nat, nat>) {
    forall i | 0 <= i < |posted| :: Honest(posted[i], rooms)
  }

  /** Each request is known by its identity: a parked reader with its room, a stop
      and a write that wait to be answered as no readers. */
  predicate Known(s: State, rooms: map<nat, nat>) {
    && rooms.Keys <= s.issued
    && (s.parked.Some? ==> s.parked.value.id in rooms && rooms[s.parked.value.id] == s.parked.value.room)
    && (s.stop.Some? ==> s.stop.value in s.issued && s.stop.value !in rooms)
    && (s.writing.Some? ==> s.writing.value in s.issued && s.writing.value !in rooms)
    && (forall i | 0 <= i < |s.posted| :: s.posted[i].id in s.issued)
  }

  lemma ToldHonest(cfg: Config, s: State, event: Event, rooms: map<nat, nat>)
    requires Inv(cfg, s) && Enabled(cfg, s, event) && Known(s, rooms)
    ensures AllHonest(Told(cfg, s, event), Rooms(rooms, event))
    ensures forall i | 0 <= i < |Told(cfg, s, event)| :: Told(cfg, s, event)[i].id in Step(cfg, s, event).issued
  {
    hide First, Queued, Framed;
  }

  lemma HonestStays(s: State, event: Event, rooms: map<nat, nat>)
    requires Known(s, rooms) && AllHonest(s.posted, rooms) && (event.Read? ==> event.id !in s.issued)
    ensures AllHonest(s.posted, Rooms(rooms, event))
  {
    forall i | 0 <= i < |s.posted| ensures Honest(s.posted[i], Rooms(rooms, event)) {
      assert Honest(s.posted[i], rooms);
    }
  }

  lemma StaysKnown(cfg: Config, s: State, event: Event, rooms: map<nat, nat>)
    requires Inv(cfg, s) && Enabled(cfg, s, event) && Known(s, rooms)
    requires forall i | 0 <= i < |Step(cfg, s, event).posted| :: Step(cfg, s, event).posted[i].id in Step(cfg, s, event).issued
    ensures Known(Step(cfg, s, event), Rooms(rooms, event))
  {
    hide First, Queued, Framed;
  }

  lemma StepKnown(cfg: Config, s: State, event: Event, rooms: map<nat, nat>)
    requires Inv(cfg, s) && Enabled(cfg, s, event) && Known(s, rooms) && AllHonest(s.posted, rooms)
    ensures Known(Step(cfg, s, event), Rooms(rooms, event)) && AllHonest(Step(cfg, s, event).posted, Rooms(rooms, event))
  {
    hide First, Queued, Framed, Honest, Told, Rooms, Step;
    StepTells(cfg, s, event);
    ToldHonest(cfg, s, event, rooms);
    HonestStays(s, event, rooms);
    IssuedGrows(cfg, s, event);
    StaysKnown(cfg, s, event, rooms);
  }

  lemma IssuedGrows(cfg: Config, s: State, event: Event)
    requires Inv(cfg, s) && Enabled(cfg, s, event)
    ensures s.issued <= Step(cfg, s, event).issued
  {
    hide First, Queued, Framed;
  }

  // ----- whole runs

  predicate NoReset(run: seq<Event>) { forall i | 0 <= i < |run| :: !run[i].Reset? }

  /** Over every run each answer of a read is an error without a frame, or success
      with a count that is the number of frames and at most the room asked for;
      nobody else is told a frame. */
  lemma {:induction false} HonestOverRun(cfg: Config, s: State, run: seq<Event>, rooms: map<nat, nat>)
    requires Inv(cfg, s) && Runs(cfg, s, run) && Known(s, rooms) && AllHonest(s.posted, rooms)
    ensures var last := RoomsAfter(rooms, run);
            Known(After(cfg, s, run), last) && AllHonest(After(cfg, s, run).posted, last)
    decreases |run|
  {
    hide Step, Enabled, Known, AllHonest;
    if run != [] {
      StepKeeps(cfg, s, run[0]);
      StepKnown(cfg, s, run[0], rooms);
      HonestOverRun(cfg, Step(cfg, s, run[0]), run[1..], Rooms(rooms, run[0]));
    }
  }

  /** And, until a reset, the frames that were told in all are exactly those that
      were taken off the queue, in their order. */
  lemma {:induction false} HandedOverRun(cfg: Config, s: State, run: seq<Event>)
    requires Inv(cfg, s) && Runs(cfg, s, run) && NoReset(run) && Handed(s.posted) == s.past.delivered
    ensures var r := After(cfg, s, run); Handed(r.posted) == r.past.delivered
    decreases |run|
  {
    hide Step, Enabled, Told;
    if run != [] {
      assert !run[0].Reset?;
      StepKeeps(cfg, s, run[0]);
      StepTells(cfg, s, run[0]);
      StepHands(cfg, s, run[0]);
      HandedJoins(s.posted, Told(cfg, s, run[0]));
      HandedOverRun(cfg, Step(cfg, s, run[0]), run[1..]);
    }
  }

  /** The reads of a run, each with the room it asked for. */
  function RoomsAfter(rooms: map<nat, nat>, run: seq<Event>): map<nat, nat>
    decreases |run|
  {
    if run == [] then rooms else RoomsAfter(Rooms(rooms, run[0]), run[1..])
  }

  /** What readers were told since the reader was new. */
  lemma ReadsAreTold(cfg: Config, run: seq<Event>)
    requires cfg.Valid() && Inv(cfg, Initial()) && Runs(cfg, Initial(), run)
    ensures AllHonest(After(cfg, Initial(), run).posted, RoomsAfter(map[], run))
    ensures NoReset(run) ==> Handed(After(cfg, Initial(), run).posted) == After(cfg, Initial(), run).past.delivered
  {
    hide Step, Enabled;
    HonestOverRun(cfg, Initial(), run, map[]);
    if NoReset(run) {
      HandedOverRun(cfg, Initial(), run);
    }
  }
}

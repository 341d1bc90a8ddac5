/** The cyclic read session object: frames are objects that the full queue uses
    again in place, and handlers update the fields; each one is proved to do
    exactly what the state machine of NmeaSpec does. */
module CyclicReadSession {
  import opened Errors
  import opened ExternRequests
  import opened NmeaFraming
  import opened NmeaSpec
  import opened NmeaProofs
  import opened NmeaAnswers

  class Frame {
    var text: string

    constructor (t: string)
      ensures text == t
    {
      text := t;
    }

    method Assign(t: string)
      modifies this
      ensures text == t
    {
      text := t;
    }
  }

  /** What a posted handler is called with. */
  datatype Posted = Posted(id: nat, error: Error, count: nat)

  class CyclicReadSession {
    const cfg: Config
    var externState: Extern
    var portReadInProgress: bool
    var portWriteInProgress: bool
    var frameBuffer: seq<Frame>
    var readError: Error
    var stopError: Error
    var readBuffer: string
    var externReadHandler: Option<Reader>
    var externStopHandler: Option<nat>
    /** Handlers given to the io_service, and every frame copied to a reader. */
    var posted: seq<Posted>
    var given: seq<Frame>

    /** The handlers bound to the operations of the port, and the history. */
    ghost var readMode: Mode
    ghost var writeHandler: nat
    ghost var issued: set<nat>
    ghost var past: Past
    ghost var answers: seq<Answer>
    /** What the frames of the queue hold, and what the frames readers have held
        when they were copied. */
    ghost var texts: seq<string>
    ghost var givenTexts: seq<string>
    /** Every read request, and the room it asked for. */
    ghost var rooms: map<nat, nat>

    /** The frames of the queue are distinct objects, none of which a reader has,
        and the frames readers have hold what they were handed out with. */
    ghost predicate Wf()
      reads this, frameBuffer, given
    {
      && |texts| == |frameBuffer| && |givenTexts| == |given| && |answers| == |posted|
      && (forall i | 0 <= i < |posted| ::
            answers[i].id == posted[i].id && answers[i].error == posted[i].error && answers[i].count == posted[i].count)
      && (forall i | 0 <= i < |frameBuffer| :: frameBuffer[i].text == texts[i])
      && (forall i | 0 <= i < |given| :: given[i].text == givenTexts[i])
      && (forall i, j | 0 <= i < j < |frameBuffer| :: frameBuffer[i] != frameBuffer[j])
      && (forall i, j | 0 <= i < |given| && 0 <= j < |frameBuffer| :: given[i] != frameBuffer[j])
    }

    ghost function State(): NmeaSpec.State
      reads this
    {
      NmeaSpec.State(externState, if portReadInProgress then Reading(readMode) else PortIdle,
                     if portWriteInProgress then Some(writeHandler) else None,
                     texts, readError, stopError, readBuffer, externReadHandler, externStopHandler,
                     answers, issued, past)
    }

    ghost predicate Valid()
      reads this, frameBuffer, given
    {
      && Wf() && Inv(cfg, State())
      && Known(State(), rooms) && AllHonest(answers, rooms) && givenTexts == Handed(answers)
    }

    /** The exceptions for bad sizes are the caller's to avoid. */
    constructor (config: Config)
      requires config.Valid()
      ensures Valid() && cfg == config && State() == Initial() && rooms == map[]
    {
      cfg := config;
      externState, portReadInProgress, portWriteInProgress := ExtReady, false, false;
      frameBuffer, readError, stopError, readBuffer := [], Success, Success, "";
      externReadHandler, externStopHandler, posted := None, None, [];
      issued, past, texts, given, givenTexts, answers := {}, Initial().past, [], [], [], [];
      rooms := map[];
      new;
      InitialInv(cfg);
    }

    // ----- the queue

    /** Copies the oldest frames, one by one and in order, until there is no more
        room or no more frame. */
    static method CopyBuffer(buffer: seq<Frame>, room: nat) returns (frames: seq<Frame>)
      ensures frames <= buffer && |frames| <= room
      ensures |frames| < room ==> frames == buffer
    {
      var copySize := Min(room, |buffer|);
      frames := [];
      while |frames| < copySize
        invariant |frames| <= copySize && frames <= buffer
      {
        frames := frames + [buffer[|frames|]];
      }
    }

    method Post(id: nat, error: Error, ghost frames: seq<string>, count: nat)
      requires Wf()
      modifies `posted, `answers
      ensures Wf()
      ensures State() == old(State()).(posted := old(State()).posted + [Answer(id, error, frames, count)])
    {
      posted, answers := posted + [Posted(id, error, count)], answers + [Answer(id, error, frames, count)];
    }

    /** Readers were given what was taken off the queue meanwhile. */
    ghost predicate GivenSince(delivered: seq<string>, texts: seq<string>)
      reads this
    {
      delivered <= past.delivered && givenTexts == texts + past.delivered[|delivered|..]
    }

    /** Copies frames to a reader and takes them off the queue. */
    method TakeFrames(room: nat) returns (n: nat)
      requires Wf()
      modifies `frameBuffer, `texts, `given, `givenTexts, `past
      ensures Wf() && n == Min(room, |old(frameBuffer)|)
      ensures given == old(given) + old(frameBuffer)[..n] && frameBuffer == old(frameBuffer)[n..]
      ensures var s := old(State());
              State() == s.(queue := s.queue[n..], past := s.past.(delivered := s.past.delivered + s.queue[..n]))
      ensures givenTexts == old(givenTexts) + old(texts)[..n]
    {
      var frames := CopyBuffer(frameBuffer, room);
      n := |frames|;
      past := past.(delivered := past.delivered + texts[..n]);
      MoveFrames(frames);
    }

    /** The reader has `frames`, the first ones of the queue. */
    method MoveFrames(frames: seq<Frame>)
      requires Wf() && frames <= frameBuffer
      modifies `frameBuffer, `texts, `given, `givenTexts
      ensures Wf() && given == old(given) + frames && frameBuffer == old(frameBuffer)[|frames|..]
      ensures texts == old(texts)[|frames|..] && givenTexts == old(givenTexts) + old(texts)[..|frames|]
    {
      given, givenTexts := given + frames, givenTexts + texts[..|frames|];
      frameBuffer, texts := frameBuffer[|frames|..], texts[|frames|..];
    }

    /** Hands the oldest frames to a reader. */
    method CompleteRead(reader: Reader)
      requires Wf()
      modifies `frameBuffer, `posted, `answers, `past, `texts, `given, `givenTexts
      ensures Wf() && State() == Deliver(old(State()), reader)
      ensures GivenSince(old(past).delivered, old(givenTexts))
      ensures forall i | 0 <= i < |frameBuffer| :: frameBuffer[i] in old(frameBuffer)
    {
      ghost var q := texts;
      var n := TakeFrames(reader.room);
      Post(reader.id, Success, q[..n], n);
    }

    predicate Full()
      reads `frameBuffer
    {
      |frameBuffer| == cfg.capacity && frameBuffer != []
    }

    /** The object for the next frame: the oldest one when the queue is full. */
    method NewFrame(t: string) returns (f: Frame)
      requires Wf()
      modifies `texts, frameBuffer
      ensures Wf() && f.text == t
      ensures Full() ==> f == frameBuffer[0] && texts == old(texts)[0 := t]
      ensures !Full() ==> fresh(f) && texts == old(texts)
    {
      if Full() {
        f := frameBuffer[0];
        f.Assign(t);
        texts := texts[0 := t];
      } else {
        f := new Frame(t);
      }
    }

    /** Puts a frame behind the others; a full queue loses its front. */
    method PushBack(f: Frame)
      requires Wf()
      requires if Full() then f == frameBuffer[0] else f !in frameBuffer && f !in given
      modifies `frameBuffer, `texts, `past
      ensures Wf()
      ensures frameBuffer == if old(Full()) then old(frameBuffer)[1..] + [f] else old(frameBuffer) + [f]
      ensures forall i | 0 <= i < |frameBuffer| :: frameBuffer[i] in old(frameBuffer) || frameBuffer[i] == f
      ensures State() == Push(cfg, old(State()), f.text) && past.delivered == old(past).delivered
    {
      past := past.(parsed := past.parsed + [f.text], lost := past.lost + if Full() then 1 else 0);
      Append(f);
    }

    method Append(f: Frame)
      requires Wf()
      requires if Full() then f == frameBuffer[0] else f !in frameBuffer && f !in given
      modifies `frameBuffer, `texts
      ensures Wf()
      ensures frameBuffer == if old(Full()) then old(frameBuffer)[1..] + [f] else old(frameBuffer) + [f]
      ensures texts == if old(Full()) then old(texts)[1..] + [f.text] else old(texts) + [f.text]
    {
      if Full() {
        frameBuffer, texts := frameBuffer[1..] + [f], texts[1..] + [f.text];
      } else {
        frameBuffer, texts := frameBuffer + [f], texts + [f.text];
      }
    }

    // ----- the port

    method ReadUntilHead()
      requires Wf()
      modifies `portReadInProgress, `readMode
      ensures Wf() && State() == old(State()).(port := Reading(InGarbage))
    {
      portReadInProgress, readMode := true, InGarbage;
    }

    method ReadUntilTail()
      requires Wf()
      modifies `portReadInProgress, `readMode
      ensures Wf() && State() == old(State()).(port := Reading(InFrame))
    {
      portReadInProgress, readMode := true, InFrame;
    }

    /** Reading begins with what the buffer holds. */
    method BeginReading()
      requires Wf()
      modifies `portReadInProgress, `readMode, `past
      ensures Wf() && State() == StartReading(old(State())) && past.delivered == old(past).delivered
    {
      past := past.(stream := readBuffer, base := |past.parsed|);
      ReadUntilHead();
    }

    method MayCompleteStop() returns (r: bool)
      ensures r == (!portWriteInProgress && !portReadInProgress)
    {
      r := !portWriteInProgress && !portReadInProgress;
    }

    /** The stop completes when the port is quiet. */
    method TryCompleteStop()
      requires Wf()
      modifies `externState, `externStopHandler, `posted, `answers
      ensures Wf() && State() == StopIfQuiet(old(State()))
    {
      var quiet := MayCompleteStop();
      if quiet {
        externState := ExtStopped;
        if externStopHandler.Some? {
          Post(externStopHandler.value, stopError, [], 0);
          externStopHandler := None;
        }
      }
    }

    method ReadFailed(error: Error)
      requires Wf()
      modifies `externReadHandler, `readError, `posted, `answers
      ensures Wf() && State() == FailRead(old(State()), error)
    {
      if externReadHandler.Some? {
        Post(externReadHandler.value.id, error, [], 0);
        externReadHandler := None;
      } else {
        readError := error;
      }
    }

    /** The read of the port has stored `arrived` in the buffer. */
    method PortRead(arrived: string)
      requires Wf()
      modifies `portReadInProgress, `readBuffer, `past
      ensures Wf() && State() == Arrived(old(State()), arrived)
    {
      portReadInProgress := false;
      readBuffer := readBuffer + arrived;
      past := past.(stream := past.stream + arrived);
    }

    /** `bytesTransferred` ends the first head in the buffer. */
    method HandleReadHead(error: Error, arrived: string, bytesTransferred: nat)
      requires Wf()
      requires !error.Failed() ==> First(readBuffer + arrived, cfg.marks.head) == Some(bytesTransferred)
      modifies `externState, `portReadInProgress, `readMode, `readBuffer, `readError, `externReadHandler,
               `externStopHandler, `posted, `answers, `past
      ensures Wf() && State() == HandleHead(cfg, old(State()), error, arrived)
    {
      hide First;
      PortRead(arrived);
      if externState.ExtStop? {
        TryCompleteStop();
        return;
      }
      if error.Failed() {
        ReadFailed(error);
        return;
      }
      readBuffer := readBuffer[bytesTransferred..];
      ReadUntilTail();
    }

    /** `bytesTransferred` ends the first tail in the buffer.  No frame that a
        reader has changes. */
    method HandleReadTail(error: Error, arrived: string, bytesTransferred: nat)
      requires Wf()
      requires !error.Failed() ==> First(readBuffer + arrived, cfg.marks.tail) == Some(bytesTransferred)
      modifies `externState, `portReadInProgress, `readMode, `readBuffer, `readError, `externReadHandler,
               `externStopHandler, `posted, `answers, `past, `frameBuffer, `texts, `given, `givenTexts, frameBuffer
      ensures Wf() && State() == HandleTail(cfg, old(State()), error, arrived)
      ensures GivenSince(old(past).delivered, old(givenTexts))
      ensures forall i | 0 <= i < |old(given)| :: old(given)[i].text == old(given[i].text)
      ensures forall i | 0 <= i < |frameBuffer| :: frameBuffer[i] in old(frameBuffer) || fresh(frameBuffer[i])
    {
      hide First;
      PortRead(arrived);
      if externState.ExtStop? {
        TryCompleteStop();
        return;
      }
      if error.Failed() {
        ReadFailed(error);
        return;
      }
      SaveFrame(bytesTransferred);
    }

    method SaveFrame(bytesTransferred: nat)
      requires Wf() && First(readBuffer, cfg.marks.tail) == Some(bytesTransferred)
      modifies `portReadInProgress, `readMode, `readBuffer, `externReadHandler, `posted, `answers, `past,
               `frameBuffer, `texts, `given, `givenTexts, frameBuffer
      ensures Wf() && State() == TailFound(cfg, old(State()))
      ensures GivenSince(old(past).delivered, old(givenTexts))
      ensures forall i | 0 <= i < |old(given)| :: old(given)[i].text == old(given[i].text)
      ensures forall i | 0 <= i < |frameBuffer| :: frameBuffer[i] in old(frameBuffer) || fresh(frameBuffer[i])
    {
      hide First, Deliver, Push;
      NothingGiven(past.delivered, givenTexts);
      StoreFrame(bytesTransferred);
      if externReadHandler.Some? {
        CompleteRead(externReadHandler.value);
        externReadHandler := None;
      }
    }

    /** Cuts the frame off the buffer and puts it in the queue. */
    method StoreFrame(bytesTransferred: nat)
      requires Wf() && |cfg.marks.tail| <= bytesTransferred <= |readBuffer|
      modifies `portReadInProgress, `readMode, `readBuffer, `past, `frameBuffer, `texts, frameBuffer
      ensures Wf()
      ensures var s, n := old(State()), bytesTransferred;
              State() == Push(cfg, s.(buffer := s.buffer[n..], port := Reading(InGarbage)),
                              s.buffer[..n - |cfg.marks.tail|])
      ensures past.delivered == old(past).delivered && givenTexts == old(givenTexts)
      ensures forall i | 0 <= i < |given| :: given[i].text == old(given[i].text)
      ensures forall i | 0 <= i < |frameBuffer| :: frameBuffer[i] in old(frameBuffer) || fresh(frameBuffer[i])
    {
      hide Push;
      ghost var t := readBuffer[..bytesTransferred - |cfg.marks.tail|];
      var newFrame := CutFrame(bytesTransferred);
      PushBack(newFrame);
      if |old(texts)| == cfg.capacity && old(texts) != [] {
        PushReplaced(cfg, old(State()), State().buffer, t);
      }
    }

    /** Takes the frame's text out of the buffer, into the object for it. */
    method CutFrame(bytesTransferred: nat) returns (f: Frame)
      requires Wf() && |cfg.marks.tail| <= bytesTransferred <= |readBuffer|
      modifies `portReadInProgress, `readMode, `readBuffer, `texts, frameBuffer
      ensures Wf() && f.text == old(readBuffer)[..bytesTransferred - |cfg.marks.tail|]
      ensures if Full() then f == frameBuffer[0] else fresh(f)
      ensures var s, n := old(State()), bytesTransferred;
              State() == s.(queue := if Full() then s.queue[0 := f.text] else s.queue,
                            buffer := s.buffer[n..], port := Reading(InGarbage))
    {
      f := NewFrame(readBuffer[..bytesTransferred - |cfg.marks.tail|]);
      readBuffer := readBuffer[bytesTransferred..];
      ReadUntilHead();
    }

    method HandleWrite(error: Error, bytesTransferred: nat, handler: nat)
      requires Wf() && portWriteInProgress && handler == writeHandler
      modifies `portWriteInProgress, `externState, `externStopHandler, `posted, `answers
      ensures Wf() && State() == NmeaSpec.HandleWrite(old(State()), error, bytesTransferred)
    {
      portWriteInProgress := false;
      Post(handler, error, [], bytesTransferred);
      if externState.ExtStop? {
        TryCompleteStop();
      }
    }

    // ----- external requests

    method StartExternStart(id: nat)
      requires Wf()
      modifies `externState, `portReadInProgress, `readMode, `past, `posted, `answers, `issued
      ensures Wf() && State() == DoStart(Issue(old(State()), id), id)
    {
      issued := issued + {id};
      if !externState.ExtReady? {
        Post(id, InvalidState, [], 0);
        return;
      }
      externState := ExtWork;
      if !portReadInProgress {
        BeginReading();
      }
      Post(id, Success, [], 0);
    }

    /** Closing the port ends with the error `closed`. */
    method StartExternStop(id: nat, closed: Error)
      requires Wf()
      modifies `externState, `externReadHandler, `externStopHandler, `stopError, `posted, `answers, `issued
      ensures Wf() && State() == DoStop(Issue(old(State()), id), id, closed)
    {
      hide DoStop;
      issued := issued + {id};
      DoStartExternStop(id, closed);
    }

    method DoStartExternStop(id: nat, closed: Error)
      requires Wf()
      modifies `externState, `externReadHandler, `externStopHandler, `stopError, `posted, `answers
      ensures Wf() && State() == DoStop(old(State()), id, closed)
    {
      hide AbortReader;
      if externState.ExtStopped? || externState.ExtStop? {
        Post(id, InvalidState, [], 0);
        return;
      }
      externState := ExtStop;
      AbortExternRead();
      stopError := closed;
      ServeStop(id);
    }

    method AbortExternRead()
      requires Wf()
      modifies `externReadHandler, `posted, `answers
      ensures Wf() && State() == AbortReader(old(State()))
    {
      if externReadHandler.Some? {
        Post(externReadHandler.value.id, OperationAborted, [], 0);
        externReadHandler := None;
      }
    }

    /** Answers a stop request at once when the port is quiet, or parks it. */
    method ServeStop(id: nat)
      requires Wf()
      modifies `externState, `externStopHandler, `posted, `answers
      ensures Wf()
      ensures var s := old(State());
              State() == (if s.writing.None? && s.port.PortIdle? then s.(extern := ExtStopped).Post(id, s.stopError)
                          else s.(stop := Some(id)))
    {
      var quiet := MayCompleteStop();
      if quiet {
        externState := ExtStopped;
        Post(id, stopError, [], 0);
      } else {
        externStopHandler := Some(id);
      }
    }

    method StartExternReadSome(id: nat, room: nat)
      requires Wf()
      modifies `externReadHandler, `portReadInProgress, `readMode, `readError, `past, `posted, `answers, `issued,
               `frameBuffer, `texts, `given, `givenTexts
      ensures Wf() && State() == DoRead(Issue(old(State()), id), id, room)
      ensures GivenSince(old(past).delivered, old(givenTexts))
      ensures forall i | 0 <= i < |frameBuffer| :: frameBuffer[i] in old(frameBuffer)
    {
      hide DoRead;
      issued := issued + {id};
      ServeRead(id, room);
    }

    method ServeRead(id: nat, room: nat)
      requires Wf()
      modifies `externReadHandler, `portReadInProgress, `readMode, `readError, `past, `posted, `answers,
               `frameBuffer, `texts, `given, `givenTexts
      ensures Wf() && State() == DoRead(old(State()), id, room)
      ensures GivenSince(old(past).delivered, old(givenTexts))
      ensures forall i | 0 <= i < |frameBuffer| :: frameBuffer[i] in old(frameBuffer)
    {
      hide StartReading, Deliver;
      NothingGiven(past.delivered, givenTexts);
      if !externState.ExtWork? || externReadHandler.Some? {
        Post(id, InvalidState, [], 0);
        return;
      }
      if frameBuffer != [] {
        CompleteRead(Reader(id, room));
        return;
      }
      if readError.Failed() {
        var error := readError;
        readError := Success;
        Post(id, error, [], 0);
        return;
      }
      if !portReadInProgress {
        BeginReading();
      }
      externReadHandler := Some(Reader(id, room));
    }

    method StartExternWriteSome(id: nat)
      requires Wf()
      modifies `portWriteInProgress, `writeHandler, `posted, `answers, `issued
      ensures Wf() && State() == DoWrite(Issue(old(State()), id), id)
    {
      issued := issued + {id};
      if !externState.ExtWork? || portWriteInProgress {
        Post(id, InvalidState, [], 0);
        return;
      }
      portWriteInProgress, writeHandler := true, id;
    }

    method Resest()
      requires Wf()
      modifies `frameBuffer, `texts, `readError, `readBuffer, `externState, `past
      ensures Wf() && frameBuffer == [] && State() == DoReset(old(State()))
    {
      frameBuffer, texts := [], [];
      readError := Success;
      readBuffer := "";
      externState := ExtReady;
      past := Initial().past;
    }

    // ----- one turn of the strand

    /** Whatever comes next, the object does what the state machine does, stays
        valid, and changes no frame that a reader has; and the counts that reads
        were told add up to the frames that readers have. */
    method Handle(event: Event)
      requires Valid() && Enabled(cfg, State(), event)
      modifies this, frameBuffer
      ensures Valid() && State() == Step(cfg, old(State()), event) && rooms == Rooms(old(rooms), event)
      ensures forall i | 0 <= i < |old(given)| :: old(given)[i].text == old(given[i].text)
      ensures forall i | 0 <= i < |frameBuffer| :: frameBuffer[i] in old(frameBuffer) || fresh(frameBuffer[i])
      ensures ReadCount(posted, rooms.Keys) == |given|
    {
      hide Inv, First, DoStart, DoStop, DoRead, DoWrite, HandleHead, HandleTail, NmeaSpec.HandleWrite, DoReset,
           Known, AllHonest, Told, Handed, HandsOut, Step, ReadCount;
      ghost var s, texts := State(), givenTexts;
      StepKeeps(cfg, s, event);
      StepKnown(cfg, s, event, rooms);
      StepTells(cfg, s, event);
      HandedJoins(s.posted, Told(cfg, s, event));
      Turn(event);
      StepGiven(cfg, s, event, texts, givenTexts);
      rooms := Rooms(rooms, event);
      CountsAddUp(posted, answers, rooms);
    }

    /** One turn, but for the rooms. */
    method Turn(event: Event)
      requires Wf() && Inv(cfg, State()) && Enabled(cfg, State(), event)
      modifies this, frameBuffer
      ensures Wf() && State() == Step(cfg, old(State()), event) && rooms == old(rooms)
      ensures forall i | 0 <= i < |old(given)| :: old(given)[i].text == old(given[i].text)
      ensures forall i | 0 <= i < |frameBuffer| :: frameBuffer[i] in old(frameBuffer) || fresh(frameBuffer[i])
      ensures if event.Read? || event.TailRead? then GivenSince(old(past).delivered, old(givenTexts))
              else givenTexts == old(givenTexts)
    {
      hide Inv, Step, Enabled, Wf;
      if event.Start? || event.Stop? || event.Read? || event.Write? {
        Serve(event);
      } else {
        Complete(event);
      }
    }

    method Serve(event: Event)
      requires Wf() && Inv(cfg, State()) && Enabled(cfg, State(), event)
      requires event.Start? || event.Stop? || event.Read? || event.Write?
      modifies this, frameBuffer
      ensures Wf() && State() == Step(cfg, old(State()), event) && rooms == old(rooms)
      ensures forall i | 0 <= i < |old(given)| :: old(given)[i].text == old(given[i].text)
      ensures forall i | 0 <= i < |frameBuffer| :: frameBuffer[i] in old(frameBuffer) || fresh(frameBuffer[i])
      ensures if event.Read? || event.TailRead? then GivenSince(old(past).delivered, old(givenTexts))
              else givenTexts == old(givenTexts)
    {
      hide Inv, First, DoStart, DoStop, DoRead, DoWrite, HandleHead, HandleTail, NmeaSpec.HandleWrite, DoReset;
      match event {
        case Start(id) => StartExternStart(id);
        case Stop(id, closed) => StartExternStop(id, closed);
        case Read(id, room) => StartExternReadSome(id, room);
        case Write(id) => StartExternWriteSome(id);
      }
    }

    method Complete(event: Event)
      requires Wf() && Inv(cfg, State()) && Enabled(cfg, State(), event)
      requires event.HeadRead? || event.TailRead? || event.Written? || event.Reset?
      modifies this, frameBuffer
      ensures Wf() && State() == Step(cfg, old(State()), event) && rooms == old(rooms)
      ensures forall i | 0 <= i < |old(given)| :: old(given)[i].text == old(given[i].text)
      ensures forall i | 0 <= i < |frameBuffer| :: frameBuffer[i] in old(frameBuffer) || fresh(frameBuffer[i])
      ensures if event.Read? || event.TailRead? then GivenSince(old(past).delivered, old(givenTexts))
              else givenTexts == old(givenTexts)
    {
      hide Inv, First, DoStart, DoStop, DoRead, DoWrite, HandleHead, HandleTail, NmeaSpec.HandleWrite, DoReset;
      match event {
        case HeadRead(error, arrived) =>
          HandleReadHead(error, arrived, Transferred(readBuffer + arrived, cfg.marks.head));
        case TailRead(error, arrived) =>
          HandleReadTail(error, arrived, Transferred(readBuffer + arrived, cfg.marks.tail));
        case Written(handler, error, count) => HandleWrite(error, count, handler);
        case Reset => Resest();
      }
    }
  }

  lemma NothingGiven(delivered: seq<string>, texts: seq<string>)
    ensures texts + delivered[|delivered|..] == texts
  {
  }

  /** What readers are given in a step is what they are told. */
  lemma StepGiven(cfg: Config, s: NmeaSpec.State, event: Event, texts: seq<string>, given: seq<string>)
    requires Inv(cfg, s) && Enabled(cfg, s, event)
    requires var r := Step(cfg, s, event);
             if event.Read? || event.TailRead? then
               s.past.delivered <= r.past.delivered && given == texts + r.past.delivered[|s.past.delivered|..]
             else given == texts
    ensures given == texts + Handed(Told(cfg, s, event))
  {
    hide Inv, First, Step, Told, Handed;
    if event.Read? || event.TailRead? {
      StepHands(cfg, s, event);
    } else {
      ToldNoFrames(cfg, s, event);
      assert texts + [] == texts;
    }
  }

  /** The frames that successful reads were told of, in all. */
  function ReadCount(posted: seq<Posted>, readers: set<nat>): nat {
    if posted == [] then 0
    else
      var p := posted[|posted| - 1];
      ReadCount(posted[..|posted| - 1], readers) + if p.id in readers && !p.error.Failed() then p.count else 0
  }

  lemma {:induction false} CountsAddUp(posted: seq<Posted>, answers: seq<Answer>, rooms: map<nat, nat>)
    requires |posted| == |answers| && AllHonest(answers, rooms)
    requires forall i | 0 <= i < |posted| ::
               answers[i].id == posted[i].id && answers[i].error == posted[i].error && answers[i].count == posted[i].count
    ensures ReadCount(posted, rooms.Keys) == |Handed(answers)|
  {
    if posted != [] {
      var n := |posted| - 1;
      assert Honest(answers[n], rooms);
      forall i | 0 <= i < n ensures Honest(answers[..n][i], rooms) {
        assert Honest(answers[i], rooms);
      }
      CountsAddUp(posted[..n], answers[..n], rooms);
    }
  }

  /** What async_read_until reports. */
  function Transferred(buffer: string, mark: string): nat {
    match First(buffer, mark)
    case None => 0
    case Some(n) => n
  }

  /** Using the front of a full queue again before the push leaves the same
      queue behind. */
  lemma PushReplaced(cfg: Config, s: NmeaSpec.State, buffer: string, t: string)
    requires |s.queue| == cfg.capacity && s.queue != []
    ensures var r := s.(buffer := buffer, port := Reading(InGarbage));
            Push(cfg, r.(queue := s.queue[0 := t]), t) == Push(cfg, r, t)
  {
    assert s.queue[0 := t][1..] == s.queue[1..];
  }
}

/** What every step of the NMEA reader keeps, and what holds over its runs. */
module NmeaProofs {
  import opened Errors
  import opened ExternRequests
  import opened NmeaFraming
  import opened NmeaSpec

  // ----- subsequences

  predicate Rising(idx: seq<nat>, n: nat) {
    && (forall i | 0 <= i < |idx| :: idx[i] < n)
    && forall i, j | 0 <= i < j < |idx| :: idx[i] < idx[j]
  }

  predicate Picks(a: seq<string>, b: seq<string>, idx: seq<nat>) {
    |idx| == |a| && Rising(idx, |b|) && forall i | 0 <= i < |a| :: a[i] == b[idx[i]]
  }

  /** `a` is `b` with some elements left out. */
  ghost predicate Sub(a: seq<string>, b: seq<string>) { exists idx: seq<nat> :: Picks(a, b, idx) }

  lemma SubGrows(a: seq<string>, b: seq<string>, f: string)
    requires Sub(a, b)
    ensures Sub(a + [f], b + [f])
  {
    var idx: seq<nat> :| Picks(a, b, idx);
    assert Picks(a + [f], b + [f], idx + [|b|]);
  }

  lemma SubDrops(a: seq<string>, q: seq<string>, b: seq<string>)
    requires q != [] && Sub(a + q, b)
    ensures Sub(a + q[1..], b)
  {
    var idx: seq<nat> :| Picks(a + q, b, idx);
    var jdx := idx[..|a|] + idx[|a| + 1..];
    forall i | 0 <= i < |jdx| ensures (a + q[1..])[i] == b[jdx[i]] {
      var k := if i < |a| then i else i + 1;
      assert jdx[i] == idx[k] && (a + q[1..])[i] == (a + q)[k];
    }
    assert Picks(a + q[1..], b, jdx);
  }

  // ----- the invariant

  predicate Control(cfg: Config, s: State) {
    && cfg.Valid() && |s.queue| <= cfg.capacity && |s.buffer| <= cfg.bufferSize
    && (s.parked.Some? ==> s.extern.ExtWork? && s.port.Reading? && s.queue == [])
    && (s.readError.Failed() ==> s.port.PortIdle?)
    && (s.stop.Some? <==> s.extern.ExtStop?)
    && (s.extern.ExtStop? ==> s.port.Reading? || s.writing.Some?)
    && (s.extern.ExtReady? || s.extern.ExtStopped? ==> s.port.PortIdle? && s.writing.None?)
    && (s.extern.ExtReady? ==> s.queue == [] && s.buffer == "" && !s.readError.Failed())
  }

  /** The queue holds the most recent frames; what was handed out and what is
      queued are the frames of the stream in order, but for the dropped ones. */
  ghost predicate Queued(s: State) {
    && |s.queue| <= |s.past.parsed| && s.queue == s.past.parsed[|s.past.parsed| - |s.queue|..]
    && |s.past.parsed| == |s.past.delivered| + |s.queue| + s.past.lost
    && Sub(s.past.delivered + s.queue, s.past.parsed)
  }

  /** The frames cut since reading began and what the buffer holds are what the
      bytes since then contain. */
  predicate Framed(cfg: Config, s: State) {
    (cfg.marks.head != [] || cfg.marks.tail != []) && s.port.Reading? ==>
      && s.past.base <= |s.past.parsed|
      && Parse(cfg.marks, s.past.stream, InGarbage)
           == Join(s.past.parsed[s.past.base..], Parse(cfg.marks, s.buffer, s.port.mode))
  }

  ghost predicate Inv(cfg: Config, s: State) { Control(cfg, s) && Queued(s) && Framed(cfg, s) }

  lemma InitialInv(cfg: Config)
    requires cfg.Valid()
    ensures Inv(cfg, Initial())
  {
    var s := Initial();
    assert Picks(s.past.delivered + s.queue, s.past.parsed, []);
  }

  // ----- the queue

  lemma PushKeeps(cfg: Config, s: State, f: string)
    requires Queued(s) && |s.queue| <= cfg.capacity && cfg.capacity >= 1
    ensures var r := Push(cfg, s, f); Queued(r) && |r.queue| <= cfg.capacity && r.queue != []
  {
    var r := Push(cfg, s, f);
    var d, q := s.past.delivered, s.queue;
    SubGrows(d + q, s.past.parsed, f);
    assert (d + q) + [f] == d + (q + [f]);
    if |q| == cfg.capacity {
      SubDrops(d, q + [f], r.past.parsed);
      assert (q + [f])[1..] == q[1..] + [f];
    }
  }

  lemma DeliverKeeps(s: State, r: Reader)
    requires Queued(s)
    ensures Queued(Deliver(s, r))
  {
    var n := Min(r.room, |s.queue|);
    assert (s.past.delivered + s.queue[..n]) + s.queue[n..] == s.past.delivered + s.queue;
  }

  lemma QueuedSame(s: State, r: State)
    requires Queued(s) && r.queue == s.queue && r.past.parsed == s.past.parsed
    requires r.past.delivered == s.past.delivered && r.past.lost == s.past.lost
    ensures Queued(r)
  {
  }

  // ----- the stream

  lemma StartReadingFramed(cfg: Config, s: State)
    ensures Framed(cfg, StartReading(s))
  {
    if cfg.marks.head != [] || cfg.marks.tail != [] {
      var p := Parse(cfg.marks, s.buffer, InGarbage);
      assert s.past.parsed[|s.past.parsed|..] + p.frames == p.frames;
    }
  }

  /** What the buffer accounts for when more bytes have been buffered. */
  predicate FramedAs(cfg: Config, s: State, mode: Mode) {
    (cfg.marks.head != [] || cfg.marks.tail != []) ==>
      && s.past.base <= |s.past.parsed|
      && Parse(cfg.marks, s.past.stream, InGarbage)
           == Join(s.past.parsed[s.past.base..], Parse(cfg.marks, s.buffer, mode))
  }

  lemma ArrivedFramed(cfg: Config, s: State, arrived: string)
    requires Framed(cfg, s) && s.port.Reading?
    ensures FramedAs(cfg, Arrived(s, arrived), s.port.mode)
  {
    if cfg.marks.head != [] || cfg.marks.tail != [] {
      MoreBytes(cfg.marks, s.past.stream, s.past.parsed[s.past.base..], s.buffer, s.port.mode, arrived);
    }
  }

  lemma HeadFoundFramed(cfg: Config, s: State)
    requires FramedAs(cfg, s, InGarbage) && First(s.buffer, cfg.marks.head).Some?
    ensures Framed(cfg, HeadFound(cfg, s))
  {
  }

  /** Finding a tail moves one frame from the buffer to the frames cut. */
  lemma TailParsed(cfg: Config, s: State)
    requires FramedAs(cfg, s, InFrame) && First(s.buffer, cfg.marks.tail).Some?
    requires cfg.marks.head != [] || cfg.marks.tail != []
    ensures var n := First(s.buffer, cfg.marks.tail).value;
            var f := s.buffer[..n - |cfg.marks.tail|];
            && s.past.base <= |s.past.parsed|
            && Parse(cfg.marks, s.past.stream, InGarbage)
                 == Join((s.past.parsed + [f])[s.past.base..], Parse(cfg.marks, s.buffer[n..], InGarbage))
  {
    hide First;
    var n := First(s.buffer, cfg.marks.tail).value;
    var f := s.buffer[..n - |cfg.marks.tail|];
    var before := s.past.parsed[s.past.base..];
    JoinTwice(before, [f], Parse(cfg.marks, s.buffer[n..], InGarbage));
    assert (s.past.parsed + [f])[s.past.base..] == before + [f];
  }

  lemma TailFoundFramed(cfg: Config, s: State)
    requires FramedAs(cfg, s, InFrame) && First(s.buffer, cfg.marks.tail).Some?
    ensures Framed(cfg, TailFound(cfg, s))
  {
    hide First, FramedAs, Parse;
    if cfg.marks.head != [] || cfg.marks.tail != [] {
      TailParsed(cfg, s);
    }
  }

  // ----- the steps

  lemma HeadKeeps(cfg: Config, s: State, error: Error, arrived: string)
    requires Inv(cfg, s) && Enabled(cfg, s, HeadRead(error, arrived))
    ensures Inv(cfg, HandleHead(cfg, s, error, arrived))
  {
    hide First;
    ArrivedFramed(cfg, s, arrived);
    if !s.extern.ExtStop? && !error.Failed() {
      HeadFoundFramed(cfg, Arrived(s, arrived));
    }
  }

  lemma TailKeeps(cfg: Config, s: State, error: Error, arrived: string)
    requires Inv(cfg, s) && Enabled(cfg, s, TailRead(error, arrived))
    ensures Inv(cfg, HandleTail(cfg, s, error, arrived))
  {
    hide First;
    ArrivedFramed(cfg, s, arrived);
    if !s.extern.ExtStop? && !error.Failed() {
      TailFoundFramed(cfg, Arrived(s, arrived));
      TailFoundKeeps(cfg, Arrived(s, arrived));
    }
  }

  lemma TailFoundKeeps(cfg: Config, s: State)
    requires Queued(s) && s.port.PortIdle? && First(s.buffer, cfg.marks.tail).Some?
    requires Control(cfg, s.(port := Reading(InGarbage))) && s.extern.ExtWork?
    ensures Queued(TailFound(cfg, s)) && Control(cfg, TailFound(cfg, s))
  {
    hide First, Queued, Framed;
    var n := First(s.buffer, cfg.marks.tail).value;
    var f := s.buffer[..n - |cfg.marks.tail|];
    QueuedSame(s, s.(buffer := s.buffer[n..], port := Reading(InGarbage)));
    var c := s.(buffer := s.buffer[n..], port := Reading(InGarbage));
    PushKeeps(cfg, c, f);
    if c.parked.Some? {
      var d := Deliver(Push(cfg, c, f), c.parked.value);
      DeliverKeeps(Push(cfg, c, f), c.parked.value);
      QueuedSame(d, d.(parked := None));
    }
  }

  lemma ReadKeeps(cfg: Config, s: State, id: nat, room: nat)
    requires Inv(cfg, s)
    ensures Inv(cfg, DoRead(s, id, room))
  {
    hide Queued, Parse;
    DeliverKeeps(s, Reader(id, room));
    StartReadingFramed(cfg, s);
    if s.queue == [] || !s.extern.ExtWork? || s.parked.Some? {
      QueuedSame(s, DoRead(s, id, room));
    }
  }

  lemma StartKeeps(cfg: Config, s: State, id: nat)
    requires Inv(cfg, s)
    ensures Inv(cfg, DoStart(s, id))
  {
    StartReadingFramed(cfg, s.(extern := ExtWork));
  }

  lemma IssueKeeps(cfg: Config, s: State, id: nat)
    requires Inv(cfg, s)
    ensures Inv(cfg, Issue(s, id))
  {
    hide Parse, Sub;
  }

  lemma StopKeeps(cfg: Config, s: State, id: nat, closed: Error)
    requires Inv(cfg, s)
    ensures Inv(cfg, DoStop(s, id, closed))
  {
    hide Parse, Sub;
  }

  lemma WriteKeeps(cfg: Config, s: State, id: nat)
    requires Inv(cfg, s)
    ensures Inv(cfg, DoWrite(s, id))
  {
    hide Parse, Sub;
  }

  lemma WrittenKeeps(cfg: Config, s: State, error: Error, count: nat)
    requires Inv(cfg, s) && s.writing.Some?
    ensures Inv(cfg, HandleWrite(s, error, count))
  {
    hide Parse, Sub;
  }

  lemma ResetKeeps(cfg: Config, s: State)
    requires Inv(cfg, s) && Enabled(cfg, s, Event.Reset)
    ensures Inv(cfg, DoReset(s))
  {
    assert Picks([], [], []);
    assert [] + DoReset(s).queue == [];
  }

  /** A reset leaves a sound reader behind if and only if nothing is in flight on
      the port: the completion of an earlier read would come to a reader that is
      not working. */
  lemma ResetKeepsIff(cfg: Config, s: State)
    requires Inv(cfg, s)
    ensures Inv(cfg, DoReset(s)) <==> s.port.PortIdle? && s.writing.None?
  {
    if s.port.PortIdle? && s.writing.None? {
      ResetKeeps(cfg, s);
    }
  }

  /** Every step keeps the invariant: a parked reader means that the port is
      being read and that there is no frame for it; a deferred error means that
      the port is not being read. */
  lemma StepKeeps(cfg: Config, s: State, event: Event)
    requires Inv(cfg, s) && Enabled(cfg, s, event)
    ensures Inv(cfg, Step(cfg, s, event))
  {
    hide Inv, DoStart, DoStop, DoRead, DoWrite, HandleHead, HandleTail, HandleWrite, DoReset, First;
    match event
    case Start(id) => IssueKeeps(cfg, s, id); StartKeeps(cfg, Issue(s, id), id);
    case Stop(id, closed) => IssueKeeps(cfg, s, id); StopKeeps(cfg, Issue(s, id), id, closed);
    case Read(id, room) => IssueKeeps(cfg, s, id); ReadKeeps(cfg, Issue(s, id), id, room);
    case Write(id) => IssueKeeps(cfg, s, id); WriteKeeps(cfg, Issue(s, id), id);
    case HeadRead(error, arrived) => HeadKeeps(cfg, s, error, arrived);
    case TailRead(error, arrived) => TailKeeps(cfg, s, error, arrived);
    case Written(_, error, count) => WrittenKeeps(cfg, s, error, count);
    case Reset => ResetKeeps(cfg, s);
  }

  /** A deferred error is never overwritten: it stays until a reader is told it,
      or until a reset. */
  lemma DeferredErrorStays(cfg: Config, s: State, event: Event)
    requires Inv(cfg, s) && Enabled(cfg, s, event) && s.readError.Failed() && !event.Reset?
    ensures var r := Step(cfg, s, event);
            r.readError == s.readError
            || (event.Read? && !r.readError.Failed()
                && r.posted == s.posted + [Answer(event.id, s.readError, [], 0)])
  {
    hide First;
  }

  // ----- requests

  function Ids(posted: seq<Answer>): multiset<nat> {
    if posted == [] then multiset{}
    else Ids(posted[..|posted| - 1]) + multiset{posted[|posted| - 1].id}
  }

  function Parked(o: Option<nat>): multiset<nat> { if o.Some? then multiset{o.value} else multiset{} }

  /** The requests that were answered, wait to be, or have a write in flight. */
  function Kept(s: State): multiset<nat> {
    Ids(s.posted) + Parked(if s.parked.Some? then Some(s.parked.value.id) else None) + Parked(s.stop) + Parked(s.writing)
  }

  /** Every request made is answered once, or once still to be answered. */
  ghost predicate Settled(s: State) { Kept(s) == multiset(s.issued) }

  ghost predicate OneShort(s: State, id: nat) { Kept(s) + multiset{id} == multiset(s.issued) }

  lemma IdsAdd(posted: seq<Answer>, a: Answer)
    ensures Ids(posted + [a]) == Ids(posted) + multiset{a.id}
  {
    assert (posted + [a])[..|posted|] == posted;
  }

  lemma PostKept(s: State, id: nat, error: Error)
    ensures Kept(s.Post(id, error)) == Kept(s) + multiset{id}
  {
    IdsAdd(s.posted, Answer(id, error, [], 0));
  }

  lemma DeliverKept(s: State, r: Reader)
    ensures Kept(Deliver(s, r)) == Kept(s) + multiset{r.id}
  {
    var n := Min(r.room, |s.queue|);
    IdsAdd(s.posted, Answer(r.id, Success, s.queue[..n], n));
  }

  lemma KeptSame(s: State, r: State)
    requires r.posted == s.posted && r.parked == s.parked && r.stop == s.stop && r.writing == s.writing
    ensures Kept(r) == Kept(s)
  {
  }

  lemma ParkKept(s: State, r: Reader)
    requires s.parked.None?
    ensures Kept(s.(parked := Some(r))) == Kept(s) + multiset{r.id}
  {
  }

  /** A parked reader that was answered is no longer parked. */
  lemma UnparkKept(s: State)
    requires s.parked.Some?
    ensures Kept(s) == Kept(s.(parked := None)) + multiset{s.parked.value.id}
  {
  }

  lemma AbortKept(s: State)
    ensures Kept(AbortReader(s)) == Kept(s)
  {
    if s.parked.Some? {
      UnparkKept(s.Post(s.parked.value.id, OperationAborted));
      PostKept(s, s.parked.value.id, OperationAborted);
      assert Kept(AbortReader(s)) + multiset{s.parked.value.id} == Kept(s) + multiset{s.parked.value.id};
      Cancel(Kept(AbortReader(s)), Kept(s), s.parked.value.id);
    }
  }

  lemma Cancel(a: multiset<nat>, b: multiset<nat>, x: nat)
    requires a + multiset{x} == b + multiset{x}
    ensures a == b
  {
    assert (a + multiset{x}) - multiset{x} == a && (b + multiset{x}) - multiset{x} == b;
  }

  lemma FailKept(s: State, error: Error)
    ensures Kept(FailRead(s, error)) == Kept(s)
  {
    if s.parked.Some? {
      UnparkKept(s.Post(s.parked.value.id, error));
      PostKept(s, s.parked.value.id, error);
      Cancel(Kept(FailRead(s, error)), Kept(s), s.parked.value.id);
    }
  }

  lemma StopIfQuietKept(s: State)
    ensures Kept(StopIfQuiet(s)) == Kept(s)
  {
    if s.writing.None? && s.port.PortIdle? && s.stop.Some? {
      IdsAdd(s.posted, Answer(s.stop.value, s.stopError, [], 0));
    }
  }

  lemma TailFoundKept(cfg: Config, s: State)
    requires First(s.buffer, cfg.marks.tail).Some?
    ensures Kept(TailFound(cfg, s)) == Kept(s)
  {
    hide First;
    var n := First(s.buffer, cfg.marks.tail).value;
    var r := Push(cfg, s.(buffer := s.buffer[n..], port := Reading(InGarbage)), s.buffer[..n - |cfg.marks.tail|]);
    assert Kept(r) == Kept(s);
    if r.parked.Some? {
      DeliverKept(r, r.parked.value);
      UnparkKept(Deliver(r, r.parked.value));
      Cancel(Kept(TailFound(cfg, s)), Kept(s), r.parked.value.id);
    }
  }

  lemma SettledStart(s: State, id: nat)
    requires OneShort(s, id)
    ensures Settled(DoStart(s, id))
  {
    hide Kept;
    if !s.extern.ExtReady? {
      PostKept(s, id, InvalidState);
    } else {
      var w := s.(extern := ExtWork);
      var r := if w.port.PortIdle? then StartReading(w) else w;
      KeptSame(s, r);
      PostKept(r, id, Success);
    }
  }

  lemma SettledStop(s: State, id: nat, closed: Error)
    requires OneShort(s, id) && (s.stop.Some? ==> s.extern.ExtStop?)
    ensures Settled(DoStop(s, id, closed))
  {
    if s.extern.ExtStopped? || s.extern.ExtStop? {
      PostKept(s, id, InvalidState);
    } else {
      KeptSame(s, s.(extern := ExtStop));
      AbortKept(s.(extern := ExtStop));
      var r := AbortReader(s.(extern := ExtStop)).(stopError := closed);
      PostKept(r.(extern := ExtStopped), id, closed);
      assert r.stop.None? && Kept(r) == Kept(s);
    }
  }

  lemma SettledRead(s: State, id: nat, room: nat)
    requires OneShort(s, id)
    ensures Settled(DoRead(s, id, room))
  {
    hide Kept;
    if !s.extern.ExtWork? || s.parked.Some? {
      PostKept(s, id, InvalidState);
    } else if s.queue != [] {
      DeliverKept(s, Reader(id, room));
    } else if s.readError.Failed() {
      PostKept(s, id, s.readError);
      KeptSame(s.Post(id, s.readError), DoRead(s, id, room));
    } else {
      var r := if s.port.PortIdle? then StartReading(s) else s;
      KeptSame(s, r);
      ParkKept(r, Reader(id, room));
    }
  }

  lemma SettledWrite(s: State, id: nat)
    requires OneShort(s, id)
    ensures Settled(DoWrite(s, id))
  {
    PostKept(s, id, InvalidState);
  }

  lemma IssueShort(s: State, id: nat)
    requires Settled(s) && id !in s.issued
    ensures OneShort(Issue(s, id), id)
  {
  }

  lemma SettledRequest(cfg: Config, s: State, event: Event)
    requires Inv(cfg, s) && Enabled(cfg, s, event) && Settled(s)
    requires event.Start? || event.Stop? || event.Read? || event.Write?
    ensures Settled(Step(cfg, s, event))
  {
    hide DoStart, DoStop, DoRead, DoWrite;
    var i := Issue(s, event.id);
    IssueShort(s, event.id);
    match event
    case Start(id) => SettledStart(i, id);
    case Stop(id, closed) => SettledStop(i, id, closed);
    case Read(id, room) => SettledRead(i, id, room);
    case Write(id) => SettledWrite(i, id);
  }

  lemma WrittenKept(s: State, error: Error, count: nat)
    requires s.writing.Some?
    ensures Kept(HandleWrite(s, error, count)) == Kept(s)
  {
    IdsAdd(s.posted, Answer(s.writing.value, error, [], count));
    StopIfQuietKept(s.(writing := None, posted := s.posted + [Answer(s.writing.value, error, [], count)]));
  }

  lemma SettledCompletion(cfg: Config, s: State, event: Event)
    requires Inv(cfg, s) && Enabled(cfg, s, event) && Settled(s)
    requires event.HeadRead? || event.TailRead? || event.Written? || event.Reset?
    ensures Settled(Step(cfg, s, event))
  {
    hide First, Kept;
    if event.Written? {
      WrittenKept(s, event.error, event.count);
    } else if !event.Reset? {
      var r := Arrived(s, event.arrived);
      KeptSame(s, r);
      StopIfQuietKept(r);
      FailKept(r, event.error);
      if event.TailRead? && !event.error.Failed() {
        TailFoundKept(cfg, r);
      } else if event.HeadRead? && !event.error.Failed() {
        KeptSame(s, HeadFound(cfg, r));
      }
    } else {
      KeptSame(s, DoReset(s));
    }
  }

  // ----- runs

  ghost predicate Runs(cfg: Config, s: State, run: seq<Event>)
    requires Inv(cfg, s)
    decreases |run|
  {
    run == [] || (Enabled(cfg, s, run[0]) && (StepKeeps(cfg, s, run[0]); Runs(cfg, Step(cfg, s, run[0]), run[1..])))
  }

  ghost function After(cfg: Config, s: State, run: seq<Event>): (r: State)
    requires Inv(cfg, s) && Runs(cfg, s, run)
    ensures Inv(cfg, r)
    decreases |run|
  {
    if run == [] then s
    else
      StepKeeps(cfg, s, run[0]);
      After(cfg, Step(cfg, s, run[0]), run[1..])
  }

  function ArrivedBytes(event: Event): string {
    if event.HeadRead? || event.TailRead? then event.arrived else ""
  }

  /** All bytes the port delivered during a run. */
  function Stream(run: seq<Event>): string {
    if run == [] then "" else ArrivedBytes(run[0]) + Stream(run[1..])
  }

  /** No read of the port fails, and nobody stops or resets the reader. */
  predicate Calm(event: Event) {
    && !event.Stop? && !event.Reset?
    && (event.HeadRead? || event.TailRead? ==> !event.error.Failed())
  }

  predicate Smooth(run: seq<Event>) { forall i | 0 <= i < |run| :: Calm(run[i]) }

  /** Reading has begun with the first byte of `stream`, or not begun at all. */
  predicate SinceStart(s: State, stream: string) {
    && (s.port.PortIdle? ==> s.extern.ExtReady? && stream == "" && s.past.parsed == [])
    && (s.port.Reading? ==> s.extern.ExtWork? && s.past.stream == stream && s.past.base == 0)
  }

  lemma SmoothStep(cfg: Config, s: State, event: Event, stream: string)
    requires Control(cfg, s) && Enabled(cfg, s, event) && SinceStart(s, stream) && Calm(event)
    ensures SinceStart(Step(cfg, s, event), stream + ArrivedBytes(event))
  {
    hide First;
    assert stream + "" == stream;
  }

  lemma InvControl(cfg: Config, s: State)
    requires Inv(cfg, s)
    ensures Control(cfg, s)
  {
  }

  lemma Associate(a: string, b: string, c: string)
    ensures (a + b) + c == a + (b + c)
  {
  }

  lemma {:induction false} SmoothRun(cfg: Config, s: State, run: seq<Event>, stream: string)
    requires Inv(cfg, s) && Runs(cfg, s, run) && Smooth(run) && SinceStart(s, stream)
    ensures SinceStart(After(cfg, s, run), stream + Stream(run))
    decreases |run|
  {
    hide Inv, SinceStart, Step;
    if run == [] {
      assert stream + "" == stream;
    } else {
      assert Calm(run[0]);
      assert Control(cfg, s) by { InvControl(cfg, s); }
      StepKeeps(cfg, s, run[0]);
      SmoothStep(cfg, s, run[0], stream);
      SmoothRun(cfg, Step(cfg, s, run[0]), run[1..], stream + ArrivedBytes(run[0]));
      Associate(stream, ArrivedBytes(run[0]), Stream(run[1..]));
    }
  }

  /** However the bytes of a stream are cut into reads, the frames cut from it
      and the ones still to be found in the buffer are those of the stream. */
  lemma ChunksDoNotMatter(cfg: Config, s: State, run: seq<Event>)
    requires Inv(cfg, s) && Runs(cfg, s, run) && Smooth(run)
    requires s.extern.ExtReady? && s.past.parsed == [] && (cfg.marks.head != [] || cfg.marks.tail != [])
    ensures var r := After(cfg, s, run);
            if r.port.PortIdle? then Stream(run) == "" && r.past.parsed == []
            else Parse(cfg.marks, Stream(run), InGarbage) == Join(r.past.parsed, Parse(cfg.marks, r.buffer, r.port.mode))
  {
    SmoothRun(cfg, s, run, "");
    assert "" + Stream(run) == Stream(run);
    var r := After(cfg, s, run);
    if r.port.Reading? {
      assert r.past.parsed[0..] == r.past.parsed;
    }
  }

  /** Framing round trip.  When the bytes of the run are an encoded list of
      frames, and no mark is left in the buffer, exactly these frames were cut
      from it; the readers got them in order, but for the ones the full queue
      dropped, and if it dropped none they got all but the queued ones. */
  lemma FramesComeBack(cfg: Config, s: State, run: seq<Event>, pieces: seq<Piece>)
    requires Inv(cfg, s) && Runs(cfg, s, run) && Smooth(run)
    requires s.extern.ExtReady? && s.past == Initial().past && (cfg.marks.head != [] || cfg.marks.tail != [])
    requires (forall i | 0 <= i < |pieces| :: Clean(cfg.marks, pieces[i])) && Stream(run) == Encode(cfg.marks, pieces)
    requires var r := After(cfg, s, run);
             r.port.Reading? && First(r.buffer, Mark(cfg.marks, r.port.mode)).None?
    ensures var r := After(cfg, s, run);
            && r.past.parsed == Frames(pieces)
            && Sub(r.past.delivered + r.queue, Frames(pieces))
            && (r.past.lost == 0 ==> r.past.delivered + r.queue == Frames(pieces))
  {
    hide First;
    ChunksDoNotMatter(cfg, s, run);
    RoundTrip(cfg.marks, pieces);
    var r := After(cfg, s, run);
    assert Parse(cfg.marks, r.buffer, r.port.mode).frames == [];
    assert r.past.parsed + [] == r.past.parsed;
    if r.past.lost == 0 {
      SubAll(r.past.delivered + r.queue, r.past.parsed);
    }
  }

  lemma {:induction false} RisingAtLeast(idx: seq<nat>, n: nat, i: nat)
    requires Rising(idx, n) && i < |idx|
    ensures idx[i] >= i
  {
    if i > 0 {
      RisingAtLeast(idx, n, i - 1);
    }
  }

  lemma {:induction false} RisingAtMost(idx: seq<nat>, n: nat, i: nat)
    requires Rising(idx, n) && i < |idx|
    ensures idx[i] <= n - (|idx| - i)
    decreases |idx| - i
  {
    if i + 1 < |idx| {
      RisingAtMost(idx, n, i + 1);
    }
  }

  lemma SubAll(a: seq<string>, b: seq<string>)
    requires Sub(a, b) && |a| == |b|
    ensures a == b
  {
    var idx: seq<nat> :| Picks(a, b, idx);
    forall i | 0 <= i < |a| ensures a[i] == b[i] {
      RisingAtLeast(idx, |b|, i);
      RisingAtMost(idx, |b|, i);
    }
  }

  /** Over every run each request is answered exactly once, or still parked or
      being written, and a stopped reader has answered all of them. */
  lemma {:induction false} AnsweredExactlyOnce(cfg: Config, s: State, run: seq<Event>)
    requires Inv(cfg, s) && Runs(cfg, s, run) && Settled(s)
    ensures var r := After(cfg, s, run);
            Settled(r) && (r.extern.ExtStopped? ==> Ids(r.posted) == multiset(r.issued))
    decreases |run|
  {
    if run != [] {
      StepKeeps(cfg, s, run[0]);
      if run[0].HeadRead? || run[0].TailRead? || run[0].Written? || run[0].Reset? {
        SettledCompletion(cfg, s, run[0]);
      } else {
        SettledRequest(cfg, s, run[0]);
      }
      AnsweredExactlyOnce(cfg, Step(cfg, s, run[0]), run[1..]);
    }
  }
}

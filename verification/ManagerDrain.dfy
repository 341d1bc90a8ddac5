/** The stop of the session manager ends: every completion brings it closer. */
module ManagerDrain {
  import opened Errors
  import opened SessionWrappers
  import opened ManagerSpec
  import opened ManagerLists
  import opened ManagerBooks
  import opened ManagerProofs
  import opened ManagerCompletions
  import opened ManagerSteps

  /** How many completions a stop may still take: the accept in flight, the
      scheduled batch, the starts and waits still to be answered, one stop for
      every active session, and what the cursor still has to walk. */
  function Left(lists: Lists, ops: Ops): nat {
    (if ops.accepting.Some? then 1 else 0) + (if ops.scheduled then 1 else 0) + |ops.starting| + |ops.waiting|
    + |lists.active| + |From(lists.active, lists.stoppingEnd)|
  }

  function LeftOf(s: State): nat { Left(s.lists, s.ops) }

  predicate IsRequest(event: Event) { event.Start? || event.Stop? || event.Wait? }

  /** Every outstanding operation is counted: the stops are those of active
      sessions. */
  lemma OutstandingLeft(s: State)
    requires Book(s)
    ensures s.pending <= LeftOf(s)
  {
    var active := set w | w in s.lists.active;
    forall w | w in s.ops.stopping ensures w in active {
      Open(s, w);
    }
    assert s.ops.stopping <= active;
    Cardinality(s.ops.stopping, active);
    DistinctMembers(s.lists.active);
  }

  lemma Cardinality(a: set<W>, b: set<W>)
    requires a <= b
    ensures |a| <= |b|
  {
    assert b == a + (b - a);
  }

  lemma {:induction false} DistinctMembers(q: seq<W>)
    ensures |set w | w in q| <= |q|
  {
    if q != [] {
      DistinctMembers(q[1..]);
      assert (set w | w in q) == {q[0]} + (set w | w in q[1..]);
    }
  }

  // ----- what the parts of a step leave to do

  /** Nothing that a stop still has to do was added, nothing taken away. */
  predicate SameLeft(s: State, r: State) {
    r.lists.active == s.lists.active && r.lists.stoppingEnd == s.lists.stoppingEnd && r.ops == s.ops
  }

  lemma RecycleLeft(cfg: Config, s: State, w: W)
    ensures SameLeft(s, Recycle(cfg, s, w)) && Recycle(cfg, s, w).intern == s.intern
  {
  }

  lemma ContinueStopLeft(s: State)
    ensures SameLeft(s, ContinueStop(s))
    ensures ContinueStop(s).intern == s.intern || ContinueStop(s).intern.IntStopped?
  {
  }

  lemma RemoveLeft(s: State, w: W)
    requires NoDup(s.lists.active) && w in s.lists.active
    requires s.lists.stoppingEnd.Some? ==> s.lists.stoppingEnd.value in s.lists.active
    ensures LeftOf(RemoveFromActive(s, w)) < LeftOf(s)
  {
    EraseMembers(s.lists.active, w);
    FromAfterErase(s.lists.active, w, s.lists.stoppingEnd);
    FromMembers(s.lists.active, s.lists.stoppingEnd);
    EraseMembers(From(s.lists.active, s.lists.stoppingEnd), w);
  }

  /** A batch only stops sessions, and moves its cursor on. */
  lemma {:induction false} BatchLeft(s: State, begin: Option<W>, count: nat)
    requires NoDup(s.lists.active) && (begin.Some? ==> begin.value in s.lists.active)
    ensures var r := StopBatch(s, begin, count);
            && r.lists.active == s.lists.active && r.ops.(stopping := {}) == s.ops.(stopping := {})
            && r.intern == s.intern
            && |From(r.lists.active, r.lists.stoppingEnd)|
                 <= if count > 0 && begin.Some? then |From(s.lists.active, begin)| - 1 else |From(s.lists.active, begin)|
    decreases count
  {
    if count != 0 && begin.Some? {
      NextBegins(s.lists.active, begin.value);
      BatchLeft(StopNext(s, begin.value), Next(s.lists.active, begin.value), count - 1);
    }
  }

  // ----- every completion brings the stop closer

  ghost predicate Closer(s: State, r: State) {
    LeftOf(r) < LeftOf(s) && !r.intern.IntWork?
  }

  lemma ContinueStopCloser(s: State, q: State)
    requires LeftOf(q) < LeftOf(s) && q.intern.IntStop?
    ensures Closer(s, ContinueStop(q))
  {
    ContinueStopLeft(q);
  }

  lemma BatchDrops(s: State, count: nat)
    requires NoDup(s.lists.active) && s.ops.scheduled && count > 0
    requires s.lists.stoppingEnd.Some? ==> s.lists.stoppingEnd.value in s.lists.active
    ensures var r := s.(pending := s.pending - 1, ops := s.ops.(scheduled := false));
            var q := ScheduleIfMore(StopBatch(r, r.lists.stoppingEnd, count));
            LeftOf(q) < LeftOf(s) && q.intern == s.intern
  {
    var r := s.(pending := s.pending - 1, ops := s.ops.(scheduled := false));
    BatchLeft(r, r.lists.stoppingEnd, count);
  }

  lemma ScheduledDrops(cfg: Config, s: State)
    requires Inv(cfg, s) && s.ops.scheduled
    ensures Closer(s, HandleStopScheduled(cfg, s))
  {
    var r := s.(pending := s.pending - 1, ops := s.ops.(scheduled := false));
    BatchDrops(s, cfg.maxStopping);
    ContinueStopCloser(s, ScheduleIfMore(StopBatch(r, r.lists.stoppingEnd, cfg.maxStopping)));
  }

  lemma StartLess(s: State, w: W)
    requires w in s.ops.starting
    ensures var c := StartCompleted(s, w);
            LeftOf(c) < LeftOf(s) && c.intern == s.intern && ViewOf(c, w).state == ViewOf(s, w).state
  {
    assert |s.ops.starting - {w}| < |s.ops.starting|;
  }

  lemma WaitLess(s: State, w: W)
    requires w in s.ops.waiting
    ensures var c := WaitCompleted(s, w);
            LeftOf(c) < LeftOf(s) && c.intern == s.intern && ViewOf(c, w).state == ViewOf(s, w).state
  {
    assert |s.ops.waiting - {w}| < |s.ops.waiting|;
  }

  lemma RecycleDrops(cfg: Config, s: State, q: State, w: W)
    requires LeftOf(q) < LeftOf(s)
    ensures LeftOf(Recycle(cfg, q, w)) < LeftOf(s)
  {
    RecycleLeft(cfg, q, w);
  }

  /** A session that is over leaves less to do. */
  lemma OverDrops(cfg: Config, s: State, q: State, w: W)
    requires LeftOf(q) <= LeftOf(s) && NoDup(q.lists.active) && w in q.lists.active
    requires q.lists.stoppingEnd.Some? ==> q.lists.stoppingEnd.value in q.lists.active
    ensures LeftOf(Recycle(cfg, RemoveFromActive(Mark(q, w, WrapperState.Stopped), w), w)) < LeftOf(s)
  {
    var m := Mark(q, w, WrapperState.Stopped);
    RemoveLeft(m, w);
    RecycleDrops(cfg, s, RemoveFromActive(m, w), w);
  }

  lemma StartDrops(cfg: Config, s: State, w: W, error: Error)
    requires Inv(cfg, s) && s.intern.IntStop? && w in s.ops.starting
    ensures LeftOf(SessionStartDone(cfg, s, w, error)) < LeftOf(s)
  {
    var c := StartCompleted(s, w);
    Open(s, w);
    StartLess(s, w);
    if !ViewOf(s, w).state.Start? {
      RecycleDrops(cfg, s, c.Count(c.stats.SessionStopped(OperationAborted)), w);
    } else if error.Failed() {
      OverDrops(cfg, s, c.Count(c.stats.SessionStopped(error)), w);
    }
  }

  lemma WaitDrops(cfg: Config, s: State, w: W, error: Error)
    requires w in s.ops.waiting
    ensures LeftOf(SessionWaitDone(cfg, s, w, error)) < LeftOf(s)
  {
    var c := WaitCompleted(s, w);
    WaitLess(s, w);
    RecycleDrops(cfg, s, c.Count(c.stats.SessionStopped(OperationAborted)), w);
  }

  lemma StopDrops(cfg: Config, s: State, w: W, error: Error)
    requires Inv(cfg, s) && s.intern.IntStop? && w in s.ops.stopping
    ensures LeftOf(SessionStopDone(cfg, s, w, error)) < LeftOf(s)
  {
    Open(s, w);
    OverDrops(cfg, s, StopCompleted(s, w).Check(!error.Failed()), w);
  }

  lemma AcceptDrops(cfg: Config, s: State, w: W, error: Error)
    requires s.ops.accepting == Some(w)
    ensures LeftOf(AcceptedAtStop(cfg, s, w, error)) < LeftOf(s)
  {
    var c := AcceptCompleted(s, AcceptStopped, error);
    RecycleDrops(cfg, s, if error.Failed() then c else c.Count(c.stats.SessionStopped(OperationAborted)), w);
  }

  lemma CompletionDrops(cfg: Config, s: State, event: Event, env: Env, alloc: Option<W>)
    requires Inv(cfg, s) && Enabled(s, event, env, alloc) && s.intern.IntStop? && IsCompletion(event)
    ensures LeftOf(Complete(cfg, s, event)) < LeftOf(s)
  {
    match event
    case AcceptDone(w, error) => AcceptDrops(cfg, s.Check(s.accept.AcceptInProgress?), w, error);
    case SessionStarted(w, error) => StartDrops(cfg, s, w, error);
    case SessionWaited(w, error) => WaitDrops(cfg, s, w, error);
    case SessionStopped(w, error) => StopDrops(cfg, s, w, error);
  }

  /** One step of a stopping manager: requests leave as much to do, every
      completion leaves less, and there is no way back to work. */
  lemma StoppingStep(cfg: Config, s: State, event: Event, env: Env, alloc: Option<W>)
    requires Inv(cfg, s) && Enabled(s, event, env, alloc) && s.intern.IntStop?
    ensures var r := Step(cfg, s, event, env, alloc);
            if IsRequest(event) then LeftOf(r) == LeftOf(s) && r.intern.IntStop? else Closer(s, r)
  {
    if IsCompletion(event) {
      CompletionPasses(cfg, s, event, env, alloc);
      CompletionDrops(cfg, s, event, env, alloc);
      ContinueStopCloser(s, Complete(cfg, s, event));
    } else if event.StopScheduled? {
      ScheduledDrops(cfg, s);
    }
  }

  /** A stopped manager is called back no more, and keeps nothing. */
  lemma StoppedKeepsNothing(cfg: Config, s: State)
    requires Inv(cfg, s) && s.intern.IntStopped?
    ensures s.ops == Ops(None, {}, {}, {}, false) && s.lists.active == [] && LeftOf(s) == 0
    ensures s.past.held == {} && s.past.taken == s.past.released
    ensures s.stats.totalAccepted == s.stats.Charged() + s.past.uncounted
    ensures s.mail.waitHandler.None? && s.mail.stopHandler.None?
  {
    NothingOutstanding(s);
    assert multiset(s.past.held) == multiset{};
  }

  // ----- whole runs

  datatype Happening = Happening(event: Event, env: Env, alloc: Option<W>)

  ghost predicate Runs(cfg: Config, s: State, run: seq<Happening>)
    requires Inv(cfg, s)
    decreases |run|
  {
    run == [] ||
    (Enabled(s, run[0].event, run[0].env, run[0].alloc) &&
     (StepKeeps(cfg, s, run[0].event, run[0].env, run[0].alloc);
      Runs(cfg, Step(cfg, s, run[0].event, run[0].env, run[0].alloc), run[1..])))
  }

  ghost function After(cfg: Config, s: State, run: seq<Happening>): (r: State)
    requires Inv(cfg, s) && Runs(cfg, s, run)
    ensures Inv(cfg, r)
    decreases |run|
  {
    if run == [] then s
    else
      StepKeeps(cfg, s, run[0].event, run[0].env, run[0].alloc);
      After(cfg, Step(cfg, s, run[0].event, run[0].env, run[0].alloc), run[1..])
  }

  predicate NoReset(run: seq<Happening>) {
    forall i | 0 <= i < |run| :: !run[i].event.Reset?
  }

  function Completions(run: seq<Happening>): nat {
    if run == [] then 0
    else (if IsRequest(run[0].event) then 0 else 1) + Completions(run[1..])
  }

  /** Some stop of the run was answered with an error. */
  predicate StopFailed(run: seq<Happening>) {
    exists i | 0 <= i < |run| :: FailsAssertion(run[i].event)
  }

  lemma StopFailedTail(run: seq<Happening>)
    requires run != []
    ensures StopFailed(run) <==> FailsAssertion(run[0].event) || StopFailed(run[1..])
  {
    if i :| 1 <= i < |run| && FailsAssertion(run[i].event) {
      assert run[1..][i - 1] == run[i];
    }
  }

  /** Over every run no assertion of the manager fails, except the one about a
      session's answer to its stop, and that one exactly when a session answers
      with an error. */
  lemma {:induction false} AssertionsHold(cfg: Config, s: State, run: seq<Happening>)
    requires Inv(cfg, s) && Runs(cfg, s, run)
    ensures After(cfg, s, run).past.broken <==> s.past.broken || StopFailed(run)
    decreases |run|
  {
    if run != [] {
      StepKeeps(cfg, s, run[0].event, run[0].env, run[0].alloc);
      StopFailedTail(run);
      AssertionsHold(cfg, Step(cfg, s, run[0].event, run[0].env, run[0].alloc), run[1..]);
    }
  }

  lemma StoppedStep(cfg: Config, s: State, event: Event, env: Env, alloc: Option<W>)
    requires Inv(cfg, s) && Enabled(s, event, env, alloc) && s.intern.IntStopped? && !event.Reset?
    ensures IsRequest(event) && Step(cfg, s, event, env, alloc).intern.IntStopped?
  {
    StoppedKeepsNothing(cfg, s);
  }

  /** The drain.  From the moment a stop has begun, whatever order completions
      and requests come in: at most as many completions follow as were left, the
      manager has stopped when that many came, it stays stopped until a reset,
      and by then every session was given back, every accepted session but the
      ones that were never counted is charged once, and no handler is parked. */
  lemma {:induction false} Drains(cfg: Config, s: State, run: seq<Happening>)
    requires Inv(cfg, s) && !s.intern.IntWork? && Runs(cfg, s, run) && NoReset(run)
    ensures var r := After(cfg, s, run);
            && !r.intern.IntWork?
            && Completions(run) + LeftOf(r) <= LeftOf(s)
            && (Completions(run) == LeftOf(s) ==> r.intern.IntStopped?)
            && (s.intern.IntStopped? ==> r.intern.IntStopped?)
            && (r.intern.IntStop? ==> r.pending > 0)
            && (r.intern.IntStopped? ==>
                  && r.lists.active == [] && r.past.held == {} && r.past.taken == r.past.released
                  && r.stats.totalAccepted == r.stats.Charged() + r.past.uncounted
                  && r.mail.waitHandler.None? && r.mail.stopHandler.None?)
    decreases |run|
  {
    if run == [] {
      OutstandingLeft(s);
      if s.intern.IntStopped? {
        StoppedKeepsNothing(cfg, s);
      }
    } else {
      var h := run[0];
      assert !h.event.Reset?;
      StepKeeps(cfg, s, h.event, h.env, h.alloc);
      if s.intern.IntStop? {
        StoppingStep(cfg, s, h.event, h.env, h.alloc);
      } else {
        StoppedKeepsNothing(cfg, s);
        StoppedStep(cfg, s, h.event, h.env, h.alloc);
        StoppedKeepsNothing(cfg, Step(cfg, s, h.event, h.env, h.alloc));
      }
      Drains(cfg, Step(cfg, s, h.event, h.env, h.alloc), run[1..]);
    }
  }

  // ----- what holds after every run

  /** Never more sessions than allowed, counting the one that is being accepted;
      the check against the limit never turns an accepted session away. */
  predicate WithinCapacity(cfg: Config, s: State) {
    && |s.lists.active| + Bit(s.ops.accepting.Some?) <= cfg.maxSessions
    && (s.ops.accepting.Some? ==> |s.lists.active| < cfg.maxSessions)
  }

  /** A started manager at work waits for a connection or serves sessions; its
      acceptor is idle only at the limit or when no session could be had. */
  predicate Progressing(cfg: Config, s: State) {
    s.intern.IntWork? && s.extern.ExtWork? ==>
      && (s.ops.accepting.Some? || s.lists.active != [])
      && (s.accept.AcceptReady? ==> |s.lists.active| >= cfg.maxSessions || s.acceptError.Failed())
  }

  /** The manager counts exactly the operations it will be called back from, a
      wrapper its own, and an active session has the one its state tells. */
  ghost predicate Counted(s: State) {
    && s.pending == Bit(s.ops.accepting.Some?) + Bit(s.ops.scheduled)
                    + |s.ops.starting| + |s.ops.waiting| + |s.ops.stopping|
    && (forall w | w in s.views :: s.views[w].pending
          == Bit(w in s.ops.starting) + Bit(w in s.ops.waiting) + Bit(w in s.ops.stopping))
    && (forall w | w in s.views :: !(w in s.ops.starting && w in s.ops.waiting))
    && (forall w | w in s.lists.active :: w in s.views &&
          match s.views[w].state
          case Start => w in s.ops.starting
          case Work => w in s.ops.waiting
          case Stop => w in s.ops.stopping
          case _ => false)
  }

  /** While stopping, every session ahead of the cursor was told to stop, and a
      cursor that is not at the end is on the list and has a batch scheduled. */
  ghost predicate Walking(s: State) {
    s.intern.IntStop? ==>
      && (forall i | 0 <= i < |s.lists.active| && s.lists.active[i] !in From(s.lists.active, s.lists.stoppingEnd) ::
            s.lists.active[i] in s.views && s.views[s.lists.active[i]].state.Stop?)
      && (s.lists.stoppingEnd.Some? ==> s.lists.stoppingEnd.value in s.lists.active && s.ops.scheduled)
  }

  /** A parked wait means work; a stop is parked exactly while it goes on. */
  predicate HandlersParked(s: State) {
    && (s.mail.waitHandler.Some? ==> s.extern.ExtWork? && s.intern.IntWork?)
    && (s.mail.stopHandler.Some? <==> s.extern.ExtStop?)
    && (s.mail.stopHandler.Some? ==> s.intern.IntStop?)
  }

  /** A wrapper stands once, and in one place at most: in the active list, in the
      recycled list or in the accept in flight.  A recycled one holds no session
      and has no operation outstanding. */
  ghost predicate OnePlace(s: State) {
    && NoDup(s.lists.active) && NoDup(s.lists.recycled)
    && (forall w | w in s.lists.active :: w !in s.lists.recycled && s.ops.accepting != Some(w))
    && (forall w | w in s.lists.recycled ::
          && s.ops.accepting != Some(w) && w in s.views && s.views[w].session.None?
          && w !in s.ops.starting && w !in s.ops.waiting && w !in s.ops.stopping)
  }

  lemma InvMeans(cfg: Config, s: State)
    requires Inv(cfg, s)
    ensures WithinCapacity(cfg, s) && Progressing(cfg, s) && Counted(s) && Walking(s)
    ensures HandlersParked(s) && OnePlace(s)
  {
    forall w | w in s.lists.recycled ensures w in s.views && Sound(s.views[w], PlaceOf(s.lists, s.ops, w)) {
      Open(s, w);
    }
    forall w | w in s.lists.active ensures w in s.views && Sound(s.views[w], PlaceOf(s.lists, s.ops, w)) {
      Open(s, w);
    }
  }

  /** After every run, from the initial state or any other sound one. */
  lemma EveryRun(cfg: Config, s: State, run: seq<Happening>)
    requires Inv(cfg, s) && Runs(cfg, s, run)
    ensures var r := After(cfg, s, run);
            WithinCapacity(cfg, r) && Progressing(cfg, r) && Counted(r) && Walking(r)
            && HandlersParked(r) && OnePlace(r)
  {
    InvMeans(cfg, After(cfg, s, run));
  }
}

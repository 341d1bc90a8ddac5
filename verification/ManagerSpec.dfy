/** The session manager as a state machine on values: what each handler does to
    the acceptor, the list of active sessions, the stop that walks this list in
    batches, the recycled wrappers and the statistics.  A BOOST_ASSERT whose
    condition does not hold is recorded in `broken`. */
module ManagerSpec {
  import opened Errors
  import opened ExternRequests
  import opened SessionWrappers

  type W = SessionWrapper

  datatype Intern = IntWork | IntStop | IntStopped

  datatype AcceptState = AcceptReady | AcceptInProgress | AcceptStopped

  datatype Config = Config(maxSessions: nat, recycledSessions: nat, maxStopping: nat)
  {
    predicate Valid() { maxSessions >= 1 && maxStopping >= 1 }
  }

  datatype Stats = Stats(active: nat, maxActive: nat, recycled: nat, totalAccepted: nat,
                         activeShutdowned: nat, outOfWork: nat, timedOut: nat, errorStopped: nat)
  {
    function Charged(): nat { activeShutdowned + outOfWork + timedOut + errorStopped }

    function SetActive(count: nat): Stats {
      this.(active := count, maxActive := if maxActive < count then count else maxActive)
    }

    function Accepted(error: Error): Stats {
      if error.Failed() then this else this.(totalAccepted := totalAccepted + 1)
    }

    function SessionStopped(error: Error): Stats {
      if error.OperationAborted? then this.(activeShutdowned := activeShutdowned + 1)
      else if error.Eof? then this.(outOfWork := outOfWork + 1)
      else if error.InactivityTimeout? then this.(timedOut := timedOut + 1)
      else this.(errorStopped := errorStopped + 1)
    }
  }

  /** The intrusive lists and the cursor of the stop. */
  datatype Lists = Lists(active: seq<W>, recycled: seq<W>, stoppingEnd: Option<W>)

  /** The handlers the manager is going to be called back with. */
  datatype Ops = Ops(accepting: Option<W>, starting: set<W>, waiting: set<W>, stopping: set<W>,
                     scheduled: bool)

  /** Sessions taken from the factory and not yet released, every session ever
      taken and ever released, accepted sessions that were told to stop without
      ever being counted as stopped, and whether an assertion failed. */
  datatype Past = Past(held: set<nat>, taken: multiset<nat>, released: multiset<nat>, uncounted: nat, broken: bool)
  {
    function Take(i: nat): Past { this.(held := held + {i}, taken := taken + multiset{i}) }

    function Release(i: nat): Past { this.(held := held - {i}, released := released + multiset{i}) }

    function Uncounted(): Past { this.(uncounted := uncounted + 1) }
  }

  datatype State = State(extern: Extern, intern: Intern, accept: AcceptState, pending: int,
                         acceptorOpen: bool, acceptError: Error, lists: Lists, views: map<W, View>,
                         ops: Ops, stats: Stats, mail: Mail, past: Past)
  {
    function Check(condition: bool): State {
      this.(past := past.(broken := past.broken || !condition))
    }

    function Count(s: Stats): State { this.(stats := s) }

    function Accepting(a: AcceptState): State { this.(accept := a) }
  }

  /** What the outside answers during one step: opening the acceptor, and the
      session (or the error) the factory creates. */
  datatype Env = Env(open: Error, create: Error, session: nat)

  datatype Event =
    | Start(id: nat)
    | Stop(id: nat)
    | Wait(id: nat)
    | AcceptDone(w: W, error: Error)
    | SessionStarted(w: W, error: Error)
    | SessionWaited(w: W, error: Error)
    | SessionStopped(w: W, error: Error)
    | StopScheduled
    | Reset(freeRecycled: bool)

  function Initial(): State {
    State(ExtReady, IntWork, AcceptReady, 0, false, Success, Lists([], [], None), map[],
          Ops(None, {}, {}, {}, false), Stats(0, 0, 0, 0, 0, 0, 0, 0), NoMail, Past({}, multiset{}, multiset{}, 0, false))
  }

  // ----- intrusive lists

  function Erase(q: seq<W>, w: W): seq<W> {
    if q == [] then [] else if q[0] == w then q[1..] else [q[0]] + Erase(q[1..], w)
  }

  /** The part of the list that begins with `w`. */
  function From(q: seq<W>, w: Option<W>): seq<W> {
    if w.None? || q == [] then [] else if q[0] == w.value then q else From(q[1..], w)
  }

  function Front(q: seq<W>): Option<W> { if q == [] then None else Some(q[0]) }

  function Next(q: seq<W>, w: W): Option<W> {
    var r := From(q, Some(w));
    if r == [] then None else Front(r[1..])
  }

  // ----- operations on one wrapper

  function ViewOf(s: State, w: W): View {
    if w in s.views then s.views[w] else View(None, Ready, 0, [])
  }

  function Set(s: State, w: W, v: View): State { s.(views := s.views[w := v]) }

  function StartSessionStart(s: State, w: W): State {
    Set(s, w, Asked(ViewOf(s, w), AskStart)).(pending := s.pending + 1, ops := s.ops.(starting := s.ops.starting + {w}))
  }

  function StartSessionWait(s: State, w: W): State {
    Set(s, w, Asked(ViewOf(s, w), AskWait)).(pending := s.pending + 1, ops := s.ops.(waiting := s.ops.waiting + {w}))
  }

  function StartSessionStop(s: State, w: W): State {
    Set(s, w, Asked(ViewOf(s, w), AskStop)).(pending := s.pending + 1, ops := s.ops.(stopping := s.ops.stopping + {w}))
  }

  /** Unregisters one completed operation of `w`. */
  function Completed(s: State, w: W, ops: Ops): State {
    var v := ViewOf(s, w);
    Set(s, w, v.(pending := v.pending - 1)).(pending := s.pending - 1, ops := ops)
  }

  function StartCompleted(s: State, w: W): State {
    Completed(s, w, s.ops.(starting := s.ops.starting - {w}))
  }

  function WaitCompleted(s: State, w: W): State {
    Completed(s, w, s.ops.(waiting := s.ops.waiting - {w}))
  }

  function StopCompleted(s: State, w: W): State {
    Completed(s, w, s.ops.(stopping := s.ops.stopping - {w}))
  }

  function AcceptCompleted(s: State, accept: AcceptState, error: Error): State {
    s.(pending := s.pending - 1, accept := accept, ops := s.ops.(accepting := None)).Count(s.stats.Accepted(error))
  }

  function Mark(s: State, w: W, state: WrapperState): State {
    Set(s, w, ViewOf(s, w).(state := state))
  }

  // ----- lists of the manager

  function AddToActive(s: State, w: W): State {
    var active := [w] + s.lists.active;
    s.(lists := s.lists.(active := active)).Count(s.stats.SetActive(|active|))
  }

  function RemoveFromActive(s: State, w: W): State {
    var end := if s.lists.stoppingEnd == Some(w) then Next(s.lists.active, w) else s.lists.stoppingEnd;
    var active := Erase(s.lists.active, w);
    s.(lists := s.lists.(active := active, stoppingEnd := end)).Count(s.stats.SetActive(|active|))
  }

  /** Gives the session back to its factory and keeps the wrapper if there is
      room, unless a completion of the session is still to come. */
  function Recycle(cfg: Config, s: State, w: W): State {
    var v := ViewOf(s, w);
    if v.pending != 0 then s
    else
      var r := Set(s, w, v.(session := None)).Check(v.session.Some?);
      var q := if v.session.Some? then r.(past := r.past.Release(v.session.value)) else r;
      if |q.lists.recycled| < cfg.recycledSessions then
        var recycled := [w] + q.lists.recycled;
        q.(lists := q.lists.(recycled := recycled)).Count(q.stats.(recycled := |recycled|))
      else q
  }

  /** A new session in a recycled wrapper, or in the new wrapper `alloc` when
      there is none and memory suffices; otherwise the session goes straight
      back to its factory. */
  function CreateSession(s: State, env: Env, alloc: Option<W>): (State, Option<W>, Error) {
    if env.create.Failed() then (s, None, env.create)
    else if s.lists.recycled != [] then
      var w := s.lists.recycled[0];
      var recycled := s.lists.recycled[1..];
      (Set(s, w, Attached(env.session)).(
         lists := s.lists.(recycled := recycled),
         past := s.past.Take(env.session)).Count(s.stats.(recycled := |recycled|)),
       Some(w), Success)
    else if alloc.Some? then
      (Set(s, alloc.value, Attached(env.session)).(past := s.past.Take(env.session)),
       alloc, Success)
    else (s.(past := s.past.Take(env.session).Release(env.session)), None, NotEnoughMemory)
  }

  function StartAcceptSession(s: State, w: W): State {
    s.(accept := AcceptInProgress, pending := s.pending + 1, ops := s.ops.(accepting := Some(w)))
  }

  // ----- stop

  function ContinueStop(s: State): State {
    var c := s.Check(s.intern.IntStop?);
    if c.pending != 0 then c
    else
      var r := c.Check(c.accept.AcceptStopped? && c.lists.active == []).(intern := IntStopped);
      if r.extern.ExtStop? then r.(extern := ExtStopped, mail := CompleteExternStop(r.mail, Success)) else r
  }

  function StopNext(s: State, w: W): State {
    if ViewOf(s, w).state.Stop? then s else StartSessionStop(s, w)
  }

  /** Stops at most `count` sessions from `begin` on; the result's cursor is
      where the next batch begins. */
  function StopBatch(s: State, begin: Option<W>, count: nat): State
    decreases count
  {
    if count == 0 || begin.None? then s.(lists := s.lists.(stoppingEnd := begin))
    else StopBatch(StopNext(s, begin.value), Next(s.lists.active, begin.value), count - 1)
  }

  function ScheduleIfMore(s: State): State {
    if s.lists.stoppingEnd.Some? then s.(pending := s.pending + 1, ops := s.ops.(scheduled := true)) else s
  }

  function StopBegun(s: State, error: Error): State {
    s.(intern := IntStop, acceptorOpen := false,
       accept := if s.accept.AcceptReady? then AcceptStopped else s.accept,
       mail := if s.extern.ExtWork? then CompleteExternWait(s.mail, error) else s.mail)
  }

  function StartStop(cfg: Config, s: State, error: Error): State {
    var r := StopBegun(s, error);
    ContinueStop(ScheduleIfMore(StopBatch(r, Front(r.lists.active), cfg.maxStopping)))
  }

  function HandleStopScheduled(cfg: Config, s: State): State {
    var r := s.(pending := s.pending - 1, ops := s.ops.(scheduled := false));
    ContinueStop(ScheduleIfMore(StopBatch(r, r.lists.stoppingEnd, cfg.maxStopping)))
  }

  // ----- work

  /** Getting the next session ready for the acceptor. */
  function NextAccept(cfg: Config, s: State, env: Env, alloc: Option<W>): State {
    var (r, w, error) := CreateSession(s, env, alloc);
    var q := r.(acceptError := error);
    if error.Failed() then
      if q.lists.active != [] then q else StartStop(cfg, q.Accepting(AcceptStopped), error)
    else if w.Some? then StartAcceptSession(q, w.value)
    else q
  }

  function ContinueWork(cfg: Config, s: State, env: Env, alloc: Option<W>): State {
    var c := s.Check(s.intern.IntWork?);
    if c.lists.active == [] && c.accept.AcceptStopped? then StartStop(cfg, c, c.acceptError)
    else if !c.accept.AcceptReady? then c
    else if |c.lists.active| >= cfg.maxSessions then c.(acceptorOpen := false)
    else if !c.acceptorOpen && env.open.Failed() then
      var r := c.(acceptError := env.open, accept := AcceptStopped);
      if r.lists.active == [] then StartStop(cfg, r, env.open) else r
    else
      NextAccept(cfg, if c.acceptorOpen then c else c.(acceptorOpen := true, acceptError := Success), env, alloc)
  }

  // ----- external requests

  function DoStart(cfg: Config, s: State, id: nat, env: Env, alloc: Option<W>): State {
    if !s.extern.ExtReady? then s.(mail := PostMail(s.mail, id, InvalidState))
    else
      var r := ContinueWork(cfg, s.(extern := ExtWork), env, alloc);
      if r.intern.IntStopped? then
        r.(extern := ExtStopped, mail := PostMail(r.mail, id, r.mail.waitError))
      else r.(mail := PostMail(r.mail, id, Success))
  }

  function DoStop(cfg: Config, s: State, id: nat): State {
    if s.extern.ExtStopped? || s.extern.ExtStop? then s.(mail := PostMail(s.mail, id, InvalidState))
    else
      var r := s.(extern := ExtStop, mail := CompleteExternWait(s.mail, OperationAborted));
      AnswerStop(if r.intern.IntWork? then StartStop(cfg, r, OperationAborted) else r, id)
  }

  /** Answers a stop request at once, or parks its handler. */
  function AnswerStop(s: State, id: nat): State {
    if s.intern.IntStopped? then s.(extern := ExtStopped, mail := PostMail(s.mail, id, Success))
    else s.(mail := s.mail.(stopHandler := Some(id)))
  }

  function DoWait(s: State, id: nat): State {
    if !s.extern.ExtWork? || s.mail.waitHandler.Some? then s.(mail := PostMail(s.mail, id, InvalidState))
    else if !s.intern.IntWork? then s.(mail := PostMail(s.mail, id, s.mail.waitError))
    else s.(mail := s.mail.(waitHandler := Some(id)))
  }

  function DoReset(s: State, freeRecycled: bool): State {
    s.(extern := ExtReady, intern := IntWork, accept := AcceptReady, pending := 0, acceptorOpen := false,
       lists := s.lists.(active := [], recycled := if freeRecycled then [] else s.lists.recycled),
       stats := Stats(0, 0, 0, 0, 0, 0, 0, 0), mail := s.mail.(waitError := Success),
       past := s.past.(uncounted := 0))
  }

  // ----- completions of the acceptor

  /** Only the lack of descriptors lets the manager try again. */
  function AcceptGivenUp(s: State, error: Error): State {
    if error.NoDescriptors? then s else s.(acceptError := error, accept := AcceptStopped)
  }

  function AcceptedAtWork(cfg: Config, s: State, w: W, error: Error): State {
    var r := AcceptCompleted(s, AcceptReady, error);
    if error.Failed() then Recycle(cfg, AcceptGivenUp(r, error), w)
    else if |r.lists.active| >= cfg.maxSessions then
      Recycle(cfg, r.Count(r.stats.SessionStopped(OperationAborted)), w)
    else StartSessionStart(AddToActive(r, w), w)
  }

  function AcceptedAtStop(cfg: Config, s: State, w: W, error: Error): State {
    var r := AcceptCompleted(s, AcceptStopped, error);
    Recycle(cfg, if error.Failed() then r else r.Count(r.stats.SessionStopped(OperationAborted)), w)
  }

  // ----- completions of the sessions

  function SessionStartDone(cfg: Config, s: State, w: W, error: Error): State {
    StartAnswered(cfg, StartCompleted(s, w), w, error)
  }

  function StartAnswered(cfg: Config, r: State, w: W, error: Error): State {
    if !ViewOf(r, w).state.Start? then Recycle(cfg, r.Count(r.stats.SessionStopped(OperationAborted)), w)
    else if error.Failed() then
      Recycle(cfg, RemoveFromActive(Mark(r.Count(r.stats.SessionStopped(error)), w, WrapperState.Stopped), w), w)
    else if r.intern.IntWork? then StartSessionWait(Mark(r, w, WrapperState.Work), w)
    else StartSessionStop(r.(past := r.past.Uncounted()), w)
  }

  function SessionWaitDone(cfg: Config, s: State, w: W, error: Error): State {
    WaitAnswered(cfg, WaitCompleted(s, w), w, error)
  }

  function WaitAnswered(cfg: Config, r: State, w: W, error: Error): State {
    if !ViewOf(r, w).state.Work? then Recycle(cfg, r.Count(r.stats.SessionStopped(OperationAborted)), w)
    else StartSessionStop(r.Count(r.stats.SessionStopped(error)), w)
  }

  function SessionStopDone(cfg: Config, s: State, w: W, error: Error): State {
    var r := StopCompleted(s, w);
    if !ViewOf(r, w).state.Stop? then Recycle(cfg, r, w)
    else Recycle(cfg, RemoveFromActive(Mark(r.Check(!error.Failed()), w, WrapperState.Stopped), w), w)
  }

  // ----- one step

  function Continue(cfg: Config, s: State, env: Env, alloc: Option<W>): State {
    if s.intern.IntWork? then ContinueWork(cfg, s, env, alloc) else ContinueStop(s)
  }

  predicate IsCompletion(event: Event) {
    event.AcceptDone? || event.SessionStarted? || event.SessionWaited? || event.SessionStopped?
  }

  /** What a completion does before the manager continues. */
  function Complete(cfg: Config, s: State, event: Event): State
    requires IsCompletion(event)
  {
    match event
    case AcceptDone(w, error) =>
      var c := s.Check(s.accept.AcceptInProgress?);
      if c.intern.IntWork? then AcceptedAtWork(cfg, c, w, error)
      else AcceptedAtStop(cfg, c, w, error)
    case SessionStarted(w, error) => SessionStartDone(cfg, s, w, error)
    case SessionWaited(w, error) => SessionWaitDone(cfg, s, w, error)
    case SessionStopped(w, error) => SessionStopDone(cfg, s, w, error)
  }

  /** A completion that finds the manager stopped fails an assertion. */
  function HandleCompletion(cfg: Config, s: State, event: Event, env: Env, alloc: Option<W>): State
    requires IsCompletion(event)
  {
    if s.intern.IntStopped? then s.Check(false) else Continue(cfg, Complete(cfg, s, event), env, alloc)
  }

  /** When the environment may deliver an event: a completion needs its operation
      outstanding, a request its own identity; a new wrapper is new; and a session
      that the factory hands out gets a number that no held session had, even if
      it is one that was given back in the same step. */
  predicate Enabled(s: State, event: Event, env: Env, alloc: Option<W>) {
    && env.open.IsSystem() && env.create.IsSystem()
    && env.session !in s.past.held
    && (alloc.Some? ==> alloc.value !in s.views)
    && match event
       case Start(id) => id !in s.mail.issued
       case Stop(id) => id !in s.mail.issued
       case Wait(id) => id !in s.mail.issued
       case AcceptDone(w, _) => s.ops.accepting == Some(w)
       case SessionStarted(w, _) => w in s.ops.starting
       case SessionWaited(w, _) => w in s.ops.waiting
       case SessionStopped(w, _) => w in s.ops.stopping
       case StopScheduled => s.ops.scheduled
       case Reset(_) => s.pending == 0
  }

  function Step(cfg: Config, s: State, event: Event, env: Env, alloc: Option<W>): State
    requires Enabled(s, event, env, alloc)
  {
    match event
    case Start(id) => DoStart(cfg, s.(mail := IssueMail(s.mail, id)), id, env, alloc)
    case Stop(id) => DoStop(cfg, s.(mail := IssueMail(s.mail, id)), id)
    case Wait(id) => DoWait(s.(mail := IssueMail(s.mail, id)), id)
    case StopScheduled => HandleStopScheduled(cfg, s)
    case Reset(freeRecycled) => DoReset(s, freeRecycled)
    case _ => HandleCompletion(cfg, s, event, env, alloc)
  }
}

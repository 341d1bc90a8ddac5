/** To which of the stop counters each accepted session is charged, that it is
    charged at most once, and which sessions the counters never see. */
module ManagerCounts {
  import opened Errors
  import opened ExternRequests
  import opened SessionWrappers
  import opened ManagerSpec
  import opened ManagerBooks
  import opened ManagerProofs
  import opened ManagerCompletions
  import opened ManagerSteps
  import opened ManagerDrain
  import opened ManagerOwnership

  /** A session whose start succeeds while the manager is stopping, before it was
      told to stop, is charged to no counter. */
  predicate Uncharged(s: State, event: Event) {
    s.intern.IntStop? && event.SessionStarted? && !event.error.Failed() && ViewOf(s, event.w).state.Start?
  }

  ghost function UnchargedStarts(cfg: Config, s: State, run: seq<Happening>): nat
    requires Inv(cfg, s) && Runs(cfg, s, run)
    decreases |run|
  {
    if run == [] then 0
    else
      var h := run[0];
      StepKeeps(cfg, s, h.event, h.env, h.alloc);
      (if Uncharged(s, h.event) then 1 else 0)
      + UnchargedStarts(cfg, Step(cfg, s, h.event, h.env, h.alloc), run[1..])
  }

  /** The error a step charges the end of its session with, if it does. */
  function Charge(s: State, event: Event): Option<Error> {
    match event
    case AcceptDone(_, error) =>
      if s.intern.IntStop? && !error.Failed() then Some(OperationAborted) else None
    case SessionStarted(w, error) =>
      if !ViewOf(s, w).state.Start? then Some(OperationAborted) else if error.Failed() then Some(error) else None
    case SessionWaited(w, error) =>
      Some(if ViewOf(s, w).state.Work? then error else OperationAborted)
    case _ => None
  }

  /** The counters of accepted and of stopped sessions, without the sizes of the
      lists. */
  function Counters(t: Stats): Stats { t.(active := 0, maxActive := 0, recycled := 0) }

  /** The statistics once a step has counted an accepted session and its charge. */
  function Billed(s: State, event: Event): Stats {
    var t := if event.AcceptDone? then s.stats.Accepted(event.error) else s.stats;
    var charge := Charge(s, event);
    if charge.Some? then t.SessionStopped(charge.value) else t
  }

  predicate SameCount(s: State, r: State) {
    r.past.uncounted == s.past.uncounted && Counters(r.stats) == Counters(s.stats)
  }

  lemma {:induction false} BatchCount(s: State, begin: Option<W>, count: nat)
    ensures SameCount(s, StopBatch(s, begin, count))
    decreases count
  {
    if count != 0 && begin.Some? {
      BatchCount(StopNext(s, begin.value), Next(s.lists.active, begin.value), count - 1);
    }
  }

  lemma StartStopCount(cfg: Config, s: State, error: Error)
    ensures SameCount(s, StartStop(cfg, s, error))
  {
    var b := StopBegun(s, error);
    BatchCount(b, Front(b.lists.active), cfg.maxStopping);
  }

  lemma NextAcceptCount(cfg: Config, s: State, env: Env, alloc: Option<W>)
    ensures SameCount(s, NextAccept(cfg, s, env, alloc))
  {
    hide StartStop;
    var (r, w, error) := CreateSession(s, env, alloc);
    StartStopCount(cfg, r.(acceptError := error).Accepting(AcceptStopped), error);
  }

  lemma ContinueWorkCount(cfg: Config, s: State, env: Env, alloc: Option<W>)
    ensures SameCount(s, ContinueWork(cfg, s, env, alloc))
  {
    hide StartStop, NextAccept;
    var c := s.Check(s.intern.IntWork?);
    StartStopCount(cfg, c, c.acceptError);
    StartStopCount(cfg, c.(acceptError := env.open, accept := AcceptStopped), env.open);
    NextAcceptCount(cfg, if c.acceptorOpen then c else c.(acceptorOpen := true, acceptError := Success), env, alloc);
  }

  lemma ContinueCount(cfg: Config, s: State, env: Env, alloc: Option<W>)
    ensures SameCount(s, Continue(cfg, s, env, alloc))
  {
    ContinueWorkCount(cfg, s, env, alloc);
  }

  lemma RecycleCount(cfg: Config, s: State, w: W)
    ensures SameCount(s, Recycle(cfg, s, w))
  {
  }

  /** What a completion counts before the manager continues. */
  predicate Counts(s: State, r: State, event: Event) {
    && r.past.uncounted == s.past.uncounted + (if Uncharged(s, event) then 1 else 0)
    && Counters(r.stats) == Counters(Billed(s, event))
  }

  lemma StartCount(cfg: Config, s: State, w: W, error: Error)
    requires !s.intern.IntStopped?
    ensures Counts(s, SessionStartDone(cfg, s, w, error), SessionStarted(w, error))
  {
    hide Recycle;
    var r := StartCompleted(s, w);
    RecycleCount(cfg, r.Count(r.stats.SessionStopped(OperationAborted)), w);
    RecycleCount(cfg, RemoveFromActive(Mark(r.Count(r.stats.SessionStopped(error)), w, WrapperState.Stopped), w), w);
  }

  lemma WaitCount(cfg: Config, s: State, w: W, error: Error)
    ensures Counts(s, SessionWaitDone(cfg, s, w, error), SessionWaited(w, error))
  {
    hide Recycle;
    var r := WaitCompleted(s, w);
    RecycleCount(cfg, r.Count(r.stats.SessionStopped(OperationAborted)), w);
  }

  lemma StopCount(cfg: Config, s: State, w: W, error: Error)
    ensures Counts(s, SessionStopDone(cfg, s, w, error), SessionStopped(w, error))
  {
    hide Recycle;
    var r := StopCompleted(s, w);
    RecycleCount(cfg, r, w);
    RecycleCount(cfg, RemoveFromActive(Mark(r.Check(!error.Failed()), w, WrapperState.Stopped), w), w);
  }

  lemma AcceptCount(cfg: Config, s: State, w: W, error: Error)
    requires s.intern.IntStop? || (s.intern.IntWork? && |s.lists.active| < cfg.maxSessions)
    ensures Counts(s, if s.intern.IntWork? then AcceptedAtWork(cfg, s, w, error) else AcceptedAtStop(cfg, s, w, error),
                   AcceptDone(w, error))
  {
    hide Recycle;
    var r, q := AcceptCompleted(s, AcceptReady, error), AcceptCompleted(s, AcceptStopped, error);
    RecycleCount(cfg, AcceptGivenUp(r, error), w);
    RecycleCount(cfg, if error.Failed() then q else q.Count(q.stats.SessionStopped(OperationAborted)), w);
  }

  lemma CompletionCount(cfg: Config, s: State, event: Event, env: Env, alloc: Option<W>)
    requires Inv(cfg, s) && Enabled(s, event, env, alloc) && IsCompletion(event)
    ensures Counts(s, Complete(cfg, s, event), event)
  {
    hide SessionStartDone, SessionWaitDone, SessionStopDone, AcceptedAtWork, AcceptedAtStop;
    RunningAtCompletion(cfg, s, event, env, alloc);
    match event
    case AcceptDone(w, error) =>
      AcceptFindsRoom(cfg, s);
      AcceptCount(cfg, s.Check(s.accept.AcceptInProgress?), w, error);
    case SessionStarted(w, error) => StartCount(cfg, s, w, error);
    case SessionWaited(w, error) => WaitCount(cfg, s, w, error);
    case SessionStopped(w, error) => StopCount(cfg, s, w, error);
  }

  /** One step counts one accepted session at most, charges one session at most,
      and passes over exactly the starts that go uncharged. */
  lemma CountedStep(cfg: Config, s: State, event: Event, env: Env, alloc: Option<W>)
    requires Inv(cfg, s) && Enabled(s, event, env, alloc) && !event.Reset?
    ensures Counts(s, Step(cfg, s, event, env, alloc), event)
  {
    hide StartStop, ContinueWork, Continue, Complete, Inv;
    if IsCompletion(event) {
      RunningAtCompletion(cfg, s, event, env, alloc);
      CompletionCount(cfg, s, event, env, alloc);
      ContinueCount(cfg, Complete(cfg, s, event), env, alloc);
    } else if event.StopScheduled? {
      var r := s.(pending := s.pending - 1, ops := s.ops.(scheduled := false));
      BatchCount(r, r.lists.stoppingEnd, cfg.maxStopping);
    } else if event.Start? {
      ContinueWorkCount(cfg, s.(mail := IssueMail(s.mail, event.id)).(extern := ExtWork), env, alloc);
    } else if event.Stop? {
      var i := s.(mail := IssueMail(s.mail, event.id));
      StartStopCount(cfg, i.(extern := ExtStop, mail := CompleteExternWait(i.mail, OperationAborted)), OperationAborted);
    }
  }

  /** No completion handler ever runs in a stopped manager. */
  lemma RunningAtCompletion(cfg: Config, s: State, event: Event, env: Env, alloc: Option<W>)
    requires Inv(cfg, s) && Enabled(s, event, env, alloc) && IsCompletion(event)
    ensures !s.intern.IntStopped?
  {
    CompletionPasses(cfg, s, event, env, alloc);
  }

  lemma {:induction false} UncountedOverRun(cfg: Config, s: State, run: seq<Happening>)
    requires Inv(cfg, s) && Runs(cfg, s, run) && NoReset(run)
    ensures After(cfg, s, run).past.uncounted == s.past.uncounted + UnchargedStarts(cfg, s, run)
    decreases |run|
  {
    if run != [] {
      var h := run[0];
      assert !h.event.Reset?;
      StepKeeps(cfg, s, h.event, h.env, h.alloc);
      CountedStep(cfg, s, h.event, h.env, h.alloc);
      UncountedOverRun(cfg, Step(cfg, s, h.event, h.env, h.alloc), run[1..]);
    }
  }

  // ----- each counter

  datatype Counter = ActiveShutdowned | OutOfWork | TimedOut | ErrorStopped

  function Reading(t: Stats, c: Counter): nat {
    match c
    case ActiveShutdowned => t.activeShutdowned
    case OutOfWork => t.outOfWork
    case TimedOut => t.timedOut
    case ErrorStopped => t.errorStopped
  }

  /** A session that was shut down, whose peer ended its stream, whose peer was
      silent too long, or that failed. */
  predicate Concerns(charge: Option<Error>, c: Counter) {
    match c
    case ActiveShutdowned => charge == Some(OperationAborted)
    case OutOfWork => charge == Some(Eof)
    case TimedOut => charge == Some(InactivityTimeout)
    case ErrorStopped => charge.Some? && charge.value !in {OperationAborted, Eof, InactivityTimeout}
  }

  /** How many steps of a run charge a session for the reason of a counter. */
  ghost function Charges(cfg: Config, s: State, run: seq<Happening>, c: Counter): nat
    requires Inv(cfg, s) && Runs(cfg, s, run)
    decreases |run|
  {
    if run == [] then 0
    else
      var h := run[0];
      StepKeeps(cfg, s, h.event, h.env, h.alloc);
      (if Concerns(Charge(s, h.event), c) then 1 else 0)
      + Charges(cfg, Step(cfg, s, h.event, h.env, h.alloc), run[1..], c)
  }

  /** How many accepts of a run succeed. */
  function Accepts(run: seq<Happening>): nat {
    if run == [] then 0
    else
      (if run[0].event.AcceptDone? && !run[0].event.error.Failed() then 1 else 0) + Accepts(run[1..])
  }

  lemma CounterStep(cfg: Config, s: State, event: Event, env: Env, alloc: Option<W>, c: Counter)
    requires Inv(cfg, s) && Enabled(s, event, env, alloc) && !event.Reset?
    ensures var r := Step(cfg, s, event, env, alloc);
            && Reading(r.stats, c) == Reading(s.stats, c) + (if Concerns(Charge(s, event), c) then 1 else 0)
            && r.stats.totalAccepted == s.stats.totalAccepted + Accepts([Happening(event, env, alloc)])
  {
    hide Step, Inv, Enabled, Charge;
    CountedStep(cfg, s, event, env, alloc);
    assert Accepts([Happening(event, env, alloc)][1..]) == 0;
    ChargesAccept(s, event);
  }

  lemma ChargesAccept(s: State, event: Event)
    ensures !event.AcceptDone? || !event.error.Failed() || Charge(s, event).None?
  {
  }

  /** Over every run each of the four counters grows by exactly the number of
      sessions that were charged for its own reason, and the accepted sessions by
      the number of accepts that succeeded. */
  lemma {:induction false} CountersOverRun(cfg: Config, s: State, run: seq<Happening>, c: Counter)
    requires Inv(cfg, s) && Runs(cfg, s, run) && NoReset(run)
    ensures Reading(After(cfg, s, run).stats, c) == Reading(s.stats, c) + Charges(cfg, s, run, c)
    ensures After(cfg, s, run).stats.totalAccepted == s.stats.totalAccepted + Accepts(run)
    decreases |run|
  {
    hide Step, Enabled, Charge, Concerns, Reading;
    if run != [] {
      var h := run[0];
      assert !h.event.Reset?;
      StepKeeps(cfg, s, h.event, h.env, h.alloc);
      CounterStep(cfg, s, h.event, h.env, h.alloc, c);
      assert Accepts([h][1..]) == 0 && [h][0] == h;
      CountersOverRun(cfg, Step(cfg, s, h.event, h.env, h.alloc), run[1..], c);
    }
  }

  /** Conservation of the stop counters.  Once a manager that started afresh has
      stopped, the accepted sessions minus the four stop counters are exactly the
      sessions whose start succeeded during the stop before they were told to
      stop. */
  lemma StopStatistics(cfg: Config, s: State, run: seq<Happening>)
    requires Inv(cfg, s) && Runs(cfg, s, run) && NoReset(run)
    requires s.extern.ExtReady? && After(cfg, s, run).intern.IntStopped?
    ensures var r := After(cfg, s, run);
            r.stats.totalAccepted - r.stats.Charged() == UnchargedStarts(cfg, s, run)
  {
    UncountedOverRun(cfg, s, run);
    StoppedKeepsNothing(cfg, After(cfg, s, run));
  }

  // ----- the account of each session

  /** How often the session of a wrapper was accepted, charged to a stop counter,
      and passed over by the counters. */
  datatype Account = Account(accepted: nat, charged: nat, spared: nat)

  const NEW := Account(0, 0, 0)

  /** A step enters into the account of the wrapper it is a completion for. */
  function Entered(s: State, event: Event, w: W, a: Account): Account {
    if !IsCompletion(event) || event.w != w then a
    else Account(a.accepted + (if event.AcceptDone? && !event.error.Failed() then 1 else 0),
                 a.charged + (if Charge(s, event).Some? then 1 else 0),
                 a.spared + (if Uncharged(s, event) then 1 else 0))
  }

  /** The account of the session that `w` holds after the run; a wrapper that is
      given another session begins a new account. */
  ghost function AccountAfter(cfg: Config, s: State, run: seq<Happening>, w: W, a: Account): Account
    requires Inv(cfg, s) && Runs(cfg, s, run)
    decreases |run|
  {
    if run == [] then a
    else
      var h := run[0];
      StepKeeps(cfg, s, h.event, h.env, h.alloc);
      var r := Step(cfg, s, h.event, h.env, h.alloc);
      AccountAfter(cfg, r, run[1..], w, if StillHolds(s, r, w) then Entered(s, h.event, w, a) else NEW)
  }

  /** An accepted session is charged, or was passed over, or will be charged by
      the one start or wait of it that is outstanding. */
  predicate Balanced(s: State, w: W, a: Account) {
    Holds(s, w) ==>
      && a.accepted == (if s.ops.accepting == Some(w) then 0 else 1)
      && a.accepted == a.charged + a.spared + Bit(w in s.ops.starting) + Bit(w in s.ops.waiting)
  }

  /** The account of a session that was given back. */
  predicate Closed(a: Account) { a.charged + a.spared == a.accepted <= 1 }

  lemma TurnEnters(s: State, q: State, event: Event, w: W, a: Account)
    requires IsCompletion(event) && event.w == w && Holds(s, w) && Turned(s, q, event, w)
    requires Sound(s.views[w], PlaceOf(s.lists, s.ops, w)) && Balanced(s, w, a)
    requires s.intern.IntWork? || s.intern.IntStop?
    requires match event
             case AcceptDone(_, _) => s.ops.accepting == Some(w)
             case SessionStarted(_, _) => w in s.ops.starting
             case SessionWaited(_, _) => w in s.ops.waiting
             case SessionStopped(_, _) => w in s.ops.stopping
    ensures if Holds(q, w) then Balanced(q, w, Entered(s, event, w, a)) && q.views[w].session == s.views[w].session
            else Closed(Entered(s, event, w, a))
  {
  }

  /** A session left alone or told to stop keeps its account. */
  lemma AloneBalanced(q: State, r: State, w: W, a: Account)
    requires Alone(q, r, w) && Holds(q, w) && Balanced(q, w, a)
    ensures Balanced(r, w, a) && StillHolds(q, r, w)
  {
  }

  lemma TakenBalanced(q: State, r: State, w: W, i: nat)
    requires Taken(q, r, w, i) && Book(r)
    ensures Balanced(r, w, NEW)
  {
    Open(r, w);
  }

  /** The first part of a step, up to where the manager continues. */
  lemma MidwayBalanced(cfg: Config, s: State, event: Event, env: Env, alloc: Option<W>, w: W, a: Account)
    requires Inv(cfg, s) && Enabled(s, event, env, alloc) && Holds(s, w) && Balanced(s, w, a)
    requires IsCompletion(event) ==> Turned(s, Midway(cfg, s, event), event, w)
    ensures var q := Midway(cfg, s, event);
            if Holds(q, w) then StillHolds(s, q, w) && Balanced(q, w, Entered(s, event, w, a))
            else Closed(Entered(s, event, w, a))
  {
    hide Complete, Turn;
    Open(s, w);
    if IsCompletion(event) && event.w == w {
      RunningAtCompletion(cfg, s, event, env, alloc);
      TurnEnters(s, Midway(cfg, s, event), event, w, a);
    }
  }

  /** Only the session that was just taken is new to a wrapper. */
  lemma NewlyBalanced(cfg: Config, s: State, event: Event, env: Env, alloc: Option<W>, w: W)
    requires Inv(cfg, s) && Enabled(s, event, env, alloc)
    requires var q := Midway(cfg, s, event);
             !Holds(q, w) && Carried(q, Step(cfg, s, event, env, alloc), w, env.session)
    ensures var r := Step(cfg, s, event, env, alloc); Balanced(r, w, NEW) && !StillHolds(s, r, w)
  {
    hide Step, Complete;
    var q, r := Midway(cfg, s, event), Step(cfg, s, event, env, alloc);
    StepKeeps(cfg, s, event, env, alloc);
    assert Holds(s, w) ==> s.views[w].session.value in HeldBy(s.views);
    if Taken(q, r, w, env.session) {
      TakenBalanced(q, r, w, env.session);
    }
  }

  lemma HeldBefore(cfg: Config, s: State, event: Event, w: W)
    requires IsCompletion(event) ==> Turned(s, Midway(cfg, s, event), event, w)
    requires Holds(Midway(cfg, s, event), w)
    ensures Holds(s, w)
  {
    hide Complete;
  }

  lemma AccountStep(cfg: Config, s: State, event: Event, env: Env, alloc: Option<W>, w: W, a: Account)
    requires Inv(cfg, s) && Enabled(s, event, env, alloc) && Balanced(s, w, a)
    ensures var r := Step(cfg, s, event, env, alloc);
            && Balanced(r, w, if StillHolds(s, r, w) then Entered(s, event, w, a) else NEW)
            && (Holds(s, w) && !StillHolds(s, r, w) ==> Closed(Entered(s, event, w, a)))
  {
    hide Step, Complete, Turn, Inv, Enabled, Entered;
    var q, r := Midway(cfg, s, event), Step(cfg, s, event, env, alloc);
    StepKept(cfg, s, event, env, alloc, w);
    if Holds(s, w) {
      MidwayBalanced(cfg, s, event, env, alloc, w, a);
    }
    if Holds(q, w) {
      HeldBefore(cfg, s, event, w);
      AloneBalanced(q, r, w, Entered(s, event, w, a));
    } else {
      NewlyBalanced(cfg, s, event, env, alloc, w);
    }
  }

  /** Over every run every session's account is balanced: no session is charged
      twice. */
  lemma {:induction false} AccountsBalance(cfg: Config, s: State, run: seq<Happening>, w: W, a: Account)
    requires Inv(cfg, s) && Runs(cfg, s, run) && Balanced(s, w, a)
    ensures Balanced(After(cfg, s, run), w, AccountAfter(cfg, s, run, w, a))
    decreases |run|
  {
    if run != [] {
      var h := run[0];
      var r := Step(cfg, s, h.event, h.env, h.alloc);
      StepKeeps(cfg, s, h.event, h.env, h.alloc);
      AccountStep(cfg, s, h.event, h.env, h.alloc, w, a);
      AccountsBalance(cfg, r, run[1..], w, if StillHolds(s, r, w) then Entered(s, h.event, w, a) else NEW);
    }
  }

  /** Each session is charged exactly once.  In every run of a new manager the
      session of any wrapper was charged at most once so far; and when a further
      step gives it back, it was charged exactly once if it was accepted, unless
      it is one of those whose start succeeded during the stop before they were
      told to stop, and not at all if it was not accepted. */
  lemma ChargedOnce(cfg: Config, run: seq<Happening>, h: Happening, w: W)
    requires cfg.Valid() && Inv(cfg, Initial()) && Runs(cfg, Initial(), run)
    requires var s := After(cfg, Initial(), run); Holds(s, w) && Enabled(s, h.event, h.env, h.alloc)
    ensures var s, a := After(cfg, Initial(), run), AccountAfter(cfg, Initial(), run, w, NEW);
            var r, b := Step(cfg, s, h.event, h.env, h.alloc), Entered(s, h.event, w, a);
            && a.charged + a.spared <= a.accepted <= 1 && b.charged + b.spared <= b.accepted <= 1
            && (!StillHolds(s, r, w) ==> b.charged == b.accepted - b.spared)
  {
    hide Step, Enabled, Entered;
    var s, a := After(cfg, Initial(), run), AccountAfter(cfg, Initial(), run, w, NEW);
    AccountsBalance(cfg, Initial(), run, w, NEW);
    AccountStep(cfg, s, h.event, h.env, h.alloc, w, a);
  }
}

/** The whole server: one session manager, and the session of every wrapper that
    holds one.  The sessions serve what the manager asked of them in order, at any
    time; the manager hears of a start, a wait or a stop only what the session
    has answered; and a released session is reset and may be handed out again. */
module EchoServer {
  import opened Errors
  import opened SessionWrappers
  import opened ManagerSpec
  import opened ManagerBooks
  import opened ManagerProofs
  import opened ManagerCompletions
  import opened ManagerSteps
  import opened ManagerDrain
  import opened ManagerOwnership
  import SS = SessionSpec
  import SP = SessionProofs
  import SR = SessionRuns
  import P = StopProtocol
  import Q = WaitProtocol
  import ManagerCounts

  /** A session in use, and what was asked of it so far. */
  datatype Life = Life(s: SS.State, t: P.Track)

  /** The manager, the sessions its wrappers hold, and the sessions that were
      given back. */
  datatype Server = Server(manager: State, lives: map<W, Life>, free: seq<SS.State>)

  datatype Setup = Setup(manager: Config, session: SS.Config)

  /** The manager's strand runs a handler, where the session factory hands out
      the free session `pick` or, when there is none, a new one; or the strand of
      a session does. */
  datatype Action =
    | Manage(h: Happening, pick: nat)
    | Serve(w: W, e: SR.Happening)

  function New(): Server { Server(Initial(), map[], []) }

  /** What the manager hears of a session is what the session answered. */
  predicate Delivered(y: Server, event: Event) {
    match event
    case SessionStarted(w, error) => w in y.lives && P.Replied(y.lives[w].s.mail, y.lives[w].t.start, error)
    case SessionWaited(w, error) => w in y.lives && P.Replied(y.lives[w].s.mail, y.lives[w].t.wait, error)
    case SessionStopped(w, error) => w in y.lives && P.Replied(y.lives[w].s.mail, y.lives[w].t.stop, error)
    case _ => true
  }

  predicate Possible(y: Server, action: Action) {
    match action
    case Manage(h, _) => Enabled(y.manager, h.event, h.env, h.alloc) && Delivered(y, h.event)
    case Serve(w, e) =>
      && w in y.lives && SS.Enabled(y.lives[w].s, e.event, e.env) && !e.event.Reset?
      && y.lives[w].t.asked + P.Requests(e.event) <= ViewOf(y.manager, w).asked
  }

  /** A session that may be handed out. */
  predicate Fresh(cfg: SS.Config, s: SS.State) {
    SP.Inv(cfg, s) && s.extern.ExtReady? && P.MailTracked(s.mail, P.NewTrack(s.mail))
  }

  ghost predicate AllFresh(cfg: SS.Config, free: seq<SS.State>) {
    forall i | 0 <= i < |free| :: Fresh(cfg, free[i])
  }

  function Born(s: SS.State): Life { Life(s, P.NewTrack(s.mail)) }

  /** How a session stands to what its wrapper knows of it.  It was asked nothing
      but what the manager asked; once the manager has heard that it started it
      has, and was not refused unless its stop was asked too; once the manager has
      heard that it stopped it is. */
  ghost predicate Bound(cfg: SS.Config, v: View, p: Place, l: Life) {
    && SP.Inv(cfg, l.s) && P.Tracked(l.s, l.t) && Q.WaitTracked(l.s.mail, l.t) && l.t.asked <= v.asked
    && (AskStart in v.asked && !p.starting ==> AskStart in l.t.asked)
    && (AskStart in v.asked && !p.starting && AskStop !in v.asked ==> !l.t.refused)
    && (AskStop in v.asked && !p.stopping ==> AskStop in l.t.asked && l.s.extern.ExtStopped?)
  }

  ghost function At(m: State, w: W): Place { PlaceOf(m.lists, m.ops, w) }

  ghost predicate Sane(c: Setup, y: Server) {
    && Inv(c.manager, y.manager)
    && (forall w | w in y.manager.views && Holds(y.manager, w) :: w in y.lives)
    && (forall w | w in y.lives :: Holds(y.manager, w) && Bound(c.session, ViewOf(y.manager, w), At(y.manager, w), y.lives[w]))
    && AllFresh(c.session, y.free)
  }

  // ----- one action

  /** The session that a step of the manager gave back, reset. */
  function Returned(y: Server, r: State, event: Event): seq<SS.State> {
    if IsCompletion(event) && event.w in y.lives && !StillHolds(y.manager, r, event.w)
    then [SS.DoReset(y.lives[event.w].s)] else []
  }

  function Picked(free: seq<SS.State>, pick: nat): SS.State {
    if pick < |free| then free[pick] else SS.Initial()
  }

  function Unpicked(free: seq<SS.State>, pick: nat): seq<SS.State> {
    if pick < |free| then free[..pick] + free[pick + 1..] else free
  }

  /** The wrappers that were given a session. */
  function Newcomers(m: State, r: State): set<W> {
    set w | w in r.views && Holds(r, w) && !StillHolds(m, r, w)
  }

  /** The server once its manager is `r`. */
  function Managed(y: Server, r: State, event: Event, pick: nat): Server
    requires forall w | w in y.manager.views && Holds(y.manager, w) :: w in y.lives
  {
    var free := y.free + Returned(y, r, event);
    Server(r,
           map w | w in r.views && Holds(r, w) ::
             if StillHolds(y.manager, r, w) then y.lives[w] else Born(Picked(free, pick)),
           if Newcomers(y.manager, r) == {} then free else Unpicked(free, pick))
  }

  function Do(c: Setup, y: Server, action: Action): Server
    requires Sane(c, y) && Possible(y, action)
  {
    match action
    case Manage(h, pick) =>
      Managed(y, Step(c.manager, y.manager, h.event, h.env, h.alloc), h.event, pick)
    case Serve(w, e) =>
      var l := y.lives[w];
      y.(lives := y.lives[w := Life(SS.Step(c.session, l.s, e.event, e.env), P.Next(l.t, e.event))])
  }

  // ----- blame

  /** The start of a session is refused although its stop was issued already. */
  predicate LateRefusal(m: State, event: Event) {
    event.SessionStarted? && event.error.Failed() && AskStop in ViewOf(m, event.w).asked
  }

  predicate Refused(v: View, l: Life) { l.t.refused && AskStop in v.asked }

  /** A refused session whose stop was asked: once the manager has heard the one
      answer the refusal came late, once it has heard the other an assertion
      failed. */
  predicate Blame(v: View, p: Place, l: Life, late: bool, broken: bool) {
    Refused(v, l) ==> (!p.starting ==> late) && (!p.stopping ==> broken)
  }

  // ----- the strand of a session

  lemma ServeBinds(cfg: SS.Config, v: View, p: Place, l: Life, e: SR.Happening)
    requires Bound(cfg, v, p, l) && InOrder(v.asked)
    requires SS.Enabled(l.s, e.event, e.env) && !e.event.Reset? && l.t.asked + P.Requests(e.event) <= v.asked
    ensures var n := Life(SS.Step(cfg, l.s, e.event, e.env), P.Next(l.t, e.event));
            && Bound(cfg, v, p, n)
            && (n.t.refused == l.t.refused || (p.starting && (AskStop in v.asked ==> p.stopping)))
            && (l.t.refused ==> n.t.refused)
  {
    hide SS.Step, SS.Enabled, SP.Inv, P.MailTracked, Q.WaitTracked;
    var u := P.Next(l.t, e.event);
    PrefixOrder(u.asked, v.asked);
    SP.StepKeeps(cfg, l.s, e.event, e.env);
    P.TrackedStep(cfg, l.s, e.event, e.env, l.t);
    Q.WaitStep(cfg, l.s, e.event, e.env, l.t);
    if l.s.extern.ExtStopped? {
      P.StaysStopped(cfg, l.s, e.event, e.env);
    }
    if e.event.Start? {
      P.OrderStart(l.t.asked);
      assert AskStart in u.asked;
    }
  }

  lemma PrefixOrder(a: seq<Request>, b: seq<Request>)
    requires a <= b && InOrder(b)
    ensures InOrder(a) && forall x | x in a :: x in b
  {
    assert b == a + b[|a|..];
    P.InOrderPrefix(a, b[|a|..]);
  }

  // ----- the strand of the manager, one wrapper at a time

  lemma AloneBinds(cfg: SS.Config, v: View, p: Place, r: View, q: Place, l: Life, late: bool, broken: bool)
    requires LeftAlone(v, p, r, q) && Sound(v, p) && Bound(cfg, v, p, l) && Blame(v, p, l, late, broken)
    ensures Bound(cfg, r, q, l) && Blame(r, q, l, late, broken)
    ensures Refused(v, l) ==> Refused(r, l)
    ensures p.starting == q.starting && (p.stopping ==> q.stopping)
  {
  }

  /** What a completion for the session is worth. */
  ghost predicate Heard(event: Event, p: Place, l: Life)
    requires IsCompletion(event)
  {
    match event
    case AcceptDone(_, _) => p.accepting
    case SessionStarted(_, error) => p.starting && P.Replied(l.s.mail, l.t.start, error)
    case SessionWaited(_, error) => p.waiting && P.Replied(l.s.mail, l.t.wait, error)
    case SessionStopped(_, error) => p.stopping && P.Replied(l.s.mail, l.t.stop, error)
  }

  ghost predicate TurnBinds(cfg: SS.Config, event: Event, v: View, p: Place, r: View, q: Place, l: Life,
                            late: bool, broken: bool) {
    var refusal := event.SessionStarted? && event.error.Failed() && AskStop in v.asked;
    && (r.session.Some? ==> Bound(cfg, r, q, l) && Blame(r, q, l, late || refusal, broken || FailsAssertion(event)))
    && (r.session.None? ==> l.s.pending == 0)
    && (Refused(v, l) && p.starting ==> refusal || (r.session.Some? && Refused(r, l) && q.starting))
    && (Refused(v, l) && p.stopping ==> FailsAssertion(event) || (r.session.Some? && Refused(r, l) && q.stopping))
    && (FailsAssertion(event) ==> late || (r.session.Some? && Refused(r, l) && q.starting))
    && (refusal ==> broken || (r.session.Some? && Refused(r, l) && q.stopping))
  }

  lemma StartBinds(cfg: SS.Config, working: bool, event: Event, v: View, p: Place, r: View, q: Place, l: Life,
                   late: bool, broken: bool)
    requires event.SessionStarted? && Turn(working, event, v, p, r, q) && Heard(event, p, l) && v.session.Some?
    requires Sound(v, p) && Bound(cfg, v, p, l) && Blame(v, p, l, late, broken)
    ensures TurnBinds(cfg, event, v, p, r, q, l, late, broken)
  {
    hide SP.Inv, P.MailTracked, Q.WaitTracked;
    P.StartReplied(l.s, l.t, event.error);
    if r.session.None? {
      P.AtRest(cfg, l.s, l.t);
    }
  }

  lemma WaitBinds(cfg: SS.Config, working: bool, event: Event, v: View, p: Place, r: View, q: Place, l: Life,
                  late: bool, broken: bool)
    requires event.SessionWaited? && Turn(working, event, v, p, r, q) && Heard(event, p, l) && v.session.Some?
    requires Sound(v, p) && Bound(cfg, v, p, l) && Blame(v, p, l, late, broken)
    ensures TurnBinds(cfg, event, v, p, r, q, l, late, broken)
  {
    hide SP.Inv, P.MailTracked, Q.WaitTracked;
    if r.session.None? {
      P.AtRest(cfg, l.s, l.t);
    }
  }

  lemma StopBinds(cfg: SS.Config, working: bool, event: Event, v: View, p: Place, r: View, q: Place, l: Life,
                  late: bool, broken: bool)
    requires event.SessionStopped? && Turn(working, event, v, p, r, q) && Heard(event, p, l) && v.session.Some?
    requires Sound(v, p) && Bound(cfg, v, p, l) && Blame(v, p, l, late, broken)
    ensures TurnBinds(cfg, event, v, p, r, q, l, late, broken)
  {
    hide SP.Inv, P.MailTracked, Q.WaitTracked;
    P.StopReplied(cfg, l.s, l.t, event.error);
    P.AtRest(cfg, l.s, l.t);
  }

  lemma AcceptBinds(cfg: SS.Config, working: bool, event: Event, v: View, p: Place, r: View, q: Place, l: Life,
                    late: bool, broken: bool)
    requires event.AcceptDone? && Turn(working, event, v, p, r, q) && Heard(event, p, l) && v.session.Some?
    requires Sound(v, p) && Bound(cfg, v, p, l) && Blame(v, p, l, late, broken)
    ensures TurnBinds(cfg, event, v, p, r, q, l, late, broken)
  {
    hide SP.Inv, P.MailTracked, Q.WaitTracked;
    P.AtRest(cfg, l.s, l.t);
  }

  lemma TurnStep(cfg: SS.Config, working: bool, event: Event, v: View, p: Place, r: View, q: Place, l: Life,
                 late: bool, broken: bool)
    requires IsCompletion(event) && Turn(working, event, v, p, r, q) && Heard(event, p, l) && v.session.Some?
    requires Sound(v, p) && Bound(cfg, v, p, l) && Blame(v, p, l, late, broken)
    ensures TurnBinds(cfg, event, v, p, r, q, l, late, broken)
  {
    hide Turn, Sound, Bound, Blame, TurnBinds;
    match event
    case AcceptDone(_, _) => AcceptBinds(cfg, working, event, v, p, r, q, l, late, broken);
    case SessionStarted(_, _) => StartBinds(cfg, working, event, v, p, r, q, l, late, broken);
    case SessionWaited(_, _) => WaitBinds(cfg, working, event, v, p, r, q, l, late, broken);
    case SessionStopped(_, _) => StopBinds(cfg, working, event, v, p, r, q, l, late, broken);
  }

  /** What one step of the manager makes of the session of `w`. */
  ghost predicate Fate(cfg: SS.Config, m: State, r: State, event: Event, w: W, l: Life,
                       late: bool, broken: bool) {
    var v, p, u, q := ViewOf(m, w), At(m, w), ViewOf(r, w), At(r, w);
    var mine := IsCompletion(event) && event.w == w;
    && (StillHolds(m, r, w) ==>
          && Bound(cfg, u, q, l)
          && Blame(u, q, l, late || LateRefusal(m, event), broken || FailsAssertion(event)))
    && (!StillHolds(m, r, w) ==> mine && l.s.pending == 0)
    && (Refused(v, l) && p.starting ==>
          (mine && LateRefusal(m, event)) || (StillHolds(m, r, w) && Refused(u, l) && q.starting))
    && (Refused(v, l) && p.stopping ==>
          (mine && FailsAssertion(event)) || (StillHolds(m, r, w) && Refused(u, l) && q.stopping))
    && (mine && FailsAssertion(event) ==> late || (StillHolds(m, r, w) && Refused(u, l) && q.starting))
    && (mine && LateRefusal(m, event) ==> broken || (StillHolds(m, r, w) && Refused(u, l) && q.stopping))
  }

  /** A step that is no completion for the session of `w`. */
  lemma OtherFate(cfg: SS.Config, m: State, q: State, r: State, event: Event, w: W, l: Life, late: bool, broken: bool)
    requires !(IsCompletion(event) && event.w == w) && (Same(m, q, w) || q == m) && Alone(q, r, w)
    requires Holds(m, w) && Sound(m.views[w], At(m, w)) && Bound(cfg, m.views[w], At(m, w), l)
    requires Blame(m.views[w], At(m, w), l, late, broken)
    ensures Fate(cfg, m, r, event, w, l, late, broken)
  {
    hide Bound, Sound;
    AloneBinds(cfg, m.views[w], At(m, w), r.views[w], At(r, w), l, late, broken);
  }

  /** A completion for the session of `w`, which may be given back. */
  lemma OwnFate(cfg: SS.Config, m: State, q: State, r: State, event: Event, w: W, l: Life, late: bool, broken: bool, i: nat)
    requires IsCompletion(event) && event.w == w && Turned(m, q, event, w) && Carried(q, r, w, i)
    requires Holds(m, w) && m.views[w].session != Some(i) && Heard(event, At(m, w), l)
    requires Sound(m.views[w], At(m, w)) && (Holds(q, w) ==> Sound(q.views[w], At(q, w)))
    requires Bound(cfg, m.views[w], At(m, w), l) && Blame(m.views[w], At(m, w), l, late, broken)
    ensures Fate(cfg, m, r, event, w, l, late, broken)
  {
    hide Bound, Sound, Turn, Heard;
    TurnStep(cfg, m.intern.IntWork?, event, m.views[w], At(m, w), q.views[w], At(q, w), l, late, broken);
    if Holds(q, w) {
      TurnKeeps(m.intern.IntWork?, event, m.views[w], At(m, w), q.views[w], At(q, w));
      AloneBinds(cfg, q.views[w], At(q, w), r.views[w], At(r, w), l,
                 late || LateRefusal(m, event), broken || FailsAssertion(event));
    }
  }

  lemma EachFate(c: Setup, y: Server, h: Happening, pick: nat, w: W, late: bool, broken: bool)
    requires Sane(c, y) && Possible(y, Manage(h, pick)) && w in y.lives
    requires Blame(ViewOf(y.manager, w), At(y.manager, w), y.lives[w], late, broken)
    ensures Fate(c.session, y.manager, Step(c.manager, y.manager, h.event, h.env, h.alloc), h.event, w, y.lives[w],
                 late, broken)
  {
    hide Step, Complete, Turn, Bound, Blame, Fate;
    var m, event := y.manager, h.event;
    var q, r := Midway(c.manager, m, event), Step(c.manager, m, event, h.env, h.alloc);
    StepKept(c.manager, m, event, h.env, h.alloc, w);
    Open(m, w);
    if IsCompletion(event) && event.w == w {
      CompletionPasses(c.manager, m, event, h.env, h.alloc);
      Open(q, w);
      assert m.views[w].session.value in HeldBy(m.views);
      OwnFate(c.session, m, q, r, event, w, y.lives[w], late, broken, h.env.session);
    } else {
      HeldMidway(m, q, event, w);
      OtherFate(c.session, m, q, r, event, w, y.lives[w], late, broken);
    }
  }

  lemma HeldMidway(m: State, q: State, event: Event, w: W)
    requires Holds(m, w) && !(IsCompletion(event) && event.w == w)
    requires if IsCompletion(event) then Turned(m, q, event, w) else q == m
    ensures (Same(m, q, w) || q == m) && Holds(q, w)
  {
  }

  // ----- the whole server

  lemma ResetFresh(cfg: SS.Config, s: SS.State, t: P.Track)
    requires SP.Inv(cfg, s) && P.Tracked(s, t) && s.pending == 0
    ensures Fresh(cfg, SS.DoReset(s))
  {
    SP.ResetKeeps(cfg, s, SS.Env(0, Success, Success, Success, Success, Success));
    var r := SS.DoReset(s);
    forall i | 0 <= i < |r.mail.posted| ensures P.AnswerTracked(r.mail, P.NewTrack(r.mail), i) {
      assert P.AnswerTracked(s.mail, t, i);
    }
  }

  lemma NewFresh(cfg: SS.Config)
    requires cfg.Valid()
    ensures Fresh(cfg, SS.Initial())
  {
    hide SP.Inv;
    SP.InitialInv(cfg);
  }

  lemma BornBound(cfg: SS.Config, s: SS.State, i: nat, p: Place)
    requires Fresh(cfg, s)
    ensures Bound(cfg, Attached(i), p, Born(s)) && !Refused(Attached(i), Born(s))
  {
    forall k | 0 <= k < |s.mail.posted| ensures s.mail.posted[k].id in s.mail.issued {
      assert P.AnswerTracked(s.mail, P.NewTrack(s.mail), k);
    }
  }

  /** What was given back was at rest, and may be handed out again. */
  lemma ReturnedFresh(c: Setup, y: Server, h: Happening, pick: nat)
    requires Sane(c, y) && Possible(y, Manage(h, pick))
    ensures AllFresh(c.session, y.free + Returned(y, Step(c.manager, y.manager, h.event, h.env, h.alloc), h.event))
  {
    hide Step, Fresh, SS.DoReset;
    var r := Step(c.manager, y.manager, h.event, h.env, h.alloc);
    if IsCompletion(h.event) && h.event.w in y.lives {
      var w := h.event.w;
      EachFate(c, y, h, pick, w, true, true);
      if !StillHolds(y.manager, r, w) {
        ResetFresh(c.session, y.lives[w].s, y.lives[w].t);
      }
    }
  }

  lemma ManageBinds(c: Setup, y: Server, h: Happening, pick: nat, w: W)
    requires Sane(c, y) && Possible(y, Manage(h, pick)) && c.session.Valid()
    requires w in Do(c, y, Manage(h, pick)).lives
    ensures var n := Do(c, y, Manage(h, pick));
            && Bound(c.session, ViewOf(n.manager, w), At(n.manager, w), n.lives[w])
            && (!StillHolds(y.manager, n.manager, w) ==> !Refused(ViewOf(n.manager, w), n.lives[w]))
  {
    hide Step, Bound, Fresh;
    var r := Step(c.manager, y.manager, h.event, h.env, h.alloc);
    if StillHolds(y.manager, r, w) {
      EachFate(c, y, h, pick, w, true, true);
    } else {
      SessionKept(c.manager, y.manager, h.event, h.env, h.alloc, w);
      ReturnedFresh(c, y, h, pick);
      NewFresh(c.session);
      var free := y.free + Returned(y, r, h.event);
      BornBound(c.session, Picked(free, pick), h.env.session, At(r, w));
    }
  }

  lemma DoKeeps(c: Setup, y: Server, action: Action)
    requires Sane(c, y) && Possible(y, action) && c.session.Valid()
    ensures Sane(c, Do(c, y, action))
  {
    match action
    case Manage(h, pick) => ManageKeeps(c, y, h, pick);
    case Serve(w, e) => ServeKeeps(c, y, w, e);
  }

  lemma ManageKeeps(c: Setup, y: Server, h: Happening, pick: nat)
    requires Sane(c, y) && Possible(y, Manage(h, pick)) && c.session.Valid()
    ensures Sane(c, Do(c, y, Manage(h, pick)))
  {
    hide Step, Bound, Fresh, Inv;
    var n := Do(c, y, Manage(h, pick));
    StepKeeps(c.manager, y.manager, h.event, h.env, h.alloc);
    ReturnedFresh(c, y, h, pick);
    forall w | w in n.lives ensures Bound(c.session, ViewOf(n.manager, w), At(n.manager, w), n.lives[w]) {
      ManageBinds(c, y, h, pick, w);
    }
  }

  lemma HeldSound(c: Setup, y: Server, w: W)
    requires Sane(c, y) && w in y.lives
    ensures Holds(y.manager, w) && Sound(y.manager.views[w], At(y.manager, w)) && InOrder(y.manager.views[w].asked)
  {
    hide Bound;
    Open(y.manager, w);
  }

  lemma ServeKeeps(c: Setup, y: Server, w: W, e: SR.Happening)
    requires Sane(c, y) && Possible(y, Serve(w, e))
    ensures Sane(c, Do(c, y, Serve(w, e)))
  {
    hide SS.Step, Bound, Inv, Sound, InOrder;
    HeldSound(c, y, w);
    ServeBinds(c.session, y.manager.views[w], At(y.manager, w), y.lives[w], e);
  }

  // ----- whole runs

  ghost predicate Runs(c: Setup, y: Server, run: seq<Action>)
    requires Sane(c, y) && c.session.Valid()
    decreases |run|
  {
    run == [] ||
    (Possible(y, run[0]) && (DoKeeps(c, y, run[0]); Runs(c, Do(c, y, run[0]), run[1..])))
  }

  ghost function After(c: Setup, y: Server, run: seq<Action>): (r: Server)
    requires Sane(c, y) && c.session.Valid() && Runs(c, y, run)
    ensures Sane(c, r)
    decreases |run|
  {
    if run == [] then y
    else
      DoKeeps(c, y, run[0]);
      After(c, Do(c, y, run[0]), run[1..])
  }

  lemma NewSane(c: Setup)
    requires c.manager.Valid()
    ensures Sane(c, New())
  {
    InitialInv(c.manager);
  }

  predicate Late(y: Server, action: Action) { action.Manage? && LateRefusal(y.manager, action.h.event) }

  /** Somewhere in the run the start of a session is refused after its stop was
      issued. */
  ghost predicate RefusedLate(c: Setup, y: Server, run: seq<Action>)
    requires Sane(c, y) && c.session.Valid() && Runs(c, y, run)
    decreases |run|
  {
    run != [] && (Late(y, run[0]) || (DoKeeps(c, y, run[0]); RefusedLate(c, Do(c, y, run[0]), run[1..])))
  }

  /** The manager is still to hear that the start of `w` was refused, although it
      asked for its stop. */
  predicate StartDue(y: Server, w: W) {
    w in y.lives && Refused(ViewOf(y.manager, w), y.lives[w]) && w in y.manager.ops.starting
  }

  /** The manager is still to hear what a refused session answers to its stop. */
  predicate StopDue(y: Server, w: W) {
    w in y.lives && Refused(ViewOf(y.manager, w), y.lives[w]) && w in y.manager.ops.stopping
  }

  ghost predicate AllBlamed(y: Server, late: bool) {
    forall w | w in y.lives ::
      Blame(ViewOf(y.manager, w), At(y.manager, w), y.lives[w], late, y.manager.past.broken)
  }

  /** A late refusal and the failed assertion go together, but for sessions of
      which the manager has heard only one of the two answers. */
  ghost predicate Blamed(y: Server, late: bool) {
    && AllBlamed(y, late)
    && (y.manager.past.broken ==> late || exists w | w in y.lives :: StartDue(y, w))
    && (late ==> y.manager.past.broken || exists w | w in y.lives :: StopDue(y, w))
  }

  lemma ManageAllBlamed(c: Setup, y: Server, h: Happening, pick: nat, late: bool)
    requires Sane(c, y) && Possible(y, Manage(h, pick)) && c.session.Valid() && AllBlamed(y, late)
    ensures AllBlamed(Do(c, y, Manage(h, pick)), late || LateRefusal(y.manager, h.event))
  {
    hide Step, Bound, Fresh, Inv;
    var n := Do(c, y, Manage(h, pick));
    StepKeeps(c.manager, y.manager, h.event, h.env, h.alloc);
    forall w | w in n.lives
      ensures Blame(ViewOf(n.manager, w), At(n.manager, w), n.lives[w],
                    late || LateRefusal(y.manager, h.event), n.manager.past.broken)
    {
      ManageBinds(c, y, h, pick, w);
      if StillHolds(y.manager, n.manager, w) {
        EachFate(c, y, h, pick, w, late, y.manager.past.broken);
      }
    }
  }

  /** What is due stays due until the manager hears it. */
  ghost predicate Dues(y: Server, n: Server, event: Event, w: W, late: bool) {
    var mine := IsCompletion(event) && event.w == w;
    && (StartDue(y, w) ==> LateRefusal(y.manager, event) || StartDue(n, w))
    && (StopDue(y, w) ==> FailsAssertion(event) || StopDue(n, w))
    && (mine && FailsAssertion(event) ==> late || StartDue(n, w))
    && (mine && LateRefusal(y.manager, event) ==> y.manager.past.broken || StopDue(n, w))
  }

  lemma StaysDue(c: Setup, y: Server, h: Happening, pick: nat, w: W, late: bool)
    requires Sane(c, y) && Possible(y, Manage(h, pick)) && AllBlamed(y, late) && w in y.lives
    ensures Dues(y, Do(c, y, Manage(h, pick)), h.event, w, late)
  {
    hide Step, Bound, Fresh, Inv, Blame;
    EachFate(c, y, h, pick, w, late, y.manager.past.broken);
  }

  lemma ManageBlames(c: Setup, y: Server, h: Happening, pick: nat, late: bool)
    requires Sane(c, y) && Possible(y, Manage(h, pick)) && c.session.Valid() && Blamed(y, late)
    ensures Blamed(Do(c, y, Manage(h, pick)), late || LateRefusal(y.manager, h.event))
  {
    hide Step, Sane, AllBlamed, Do, LateRefusal, StartDue, StopDue, Dues;
    var n := Do(c, y, Manage(h, pick));
    ManageAllBlamed(c, y, h, pick, late);
    ManageBreaks(c, y, h, pick);
    forall w | w in y.lives ensures Dues(y, n, h.event, w, late) {
      StaysDue(c, y, h, pick, w, late);
    }
    DuesBlame(y, n, h.event, late);
  }

  lemma DuesBlame(y: Server, n: Server, event: Event, late: bool)
    requires Blamed(y, late) && AllBlamed(n, late || LateRefusal(y.manager, event))
    requires n.manager.past.broken == (y.manager.past.broken || FailsAssertion(event))
    requires FailsAssertion(event) || LateRefusal(y.manager, event) ==> IsCompletion(event) && event.w in y.lives
    requires forall w | w in y.lives :: Dues(y, n, event, w, late)
    ensures Blamed(n, late || LateRefusal(y.manager, event))
  {
    hide AllBlamed, LateRefusal;
    if FailsAssertion(event) || LateRefusal(y.manager, event) {
      assert Dues(y, n, event, event.w, late);
    }
    if y.manager.past.broken && !late {
      var w: W :| w in y.lives && StartDue(y, w);
      assert Dues(y, n, event, w, late);
    }
    if late && !y.manager.past.broken {
      var w: W :| w in y.lives && StopDue(y, w);
      assert Dues(y, n, event, w, late);
    }
  }

  /** The assertion fails in a step that a session in use is heard in. */
  lemma ManageBreaks(c: Setup, y: Server, h: Happening, pick: nat)
    requires Sane(c, y) && Possible(y, Manage(h, pick))
    ensures Do(c, y, Manage(h, pick)).manager.past.broken == (y.manager.past.broken || FailsAssertion(h.event))
    ensures FailsAssertion(h.event) || LateRefusal(y.manager, h.event) ==> IsCompletion(h.event) && h.event.w in y.lives
  {
    hide Step, Inv;
    StepKeeps(c.manager, y.manager, h.event, h.env, h.alloc);
  }

  lemma ServeAllBlamed(c: Setup, y: Server, w: W, e: SR.Happening, late: bool)
    requires Sane(c, y) && Possible(y, Serve(w, e)) && AllBlamed(y, late)
    ensures var n := Do(c, y, Serve(w, e));
            && AllBlamed(n, late) && n.manager == y.manager
            && forall x | x in y.lives :: (StartDue(y, x) ==> StartDue(n, x)) && (StopDue(y, x) ==> StopDue(n, x))
  {
    hide SS.Step, Bound, Inv, Sound, InOrder;
    HeldSound(c, y, w);
    ServeBinds(c.session, y.manager.views[w], At(y.manager, w), y.lives[w], e);
  }

  lemma ServeBlames(c: Setup, y: Server, w: W, e: SR.Happening, late: bool)
    requires Sane(c, y) && Possible(y, Serve(w, e)) && Blamed(y, late)
    ensures Blamed(Do(c, y, Serve(w, e)), late)
  {
    hide Sane, Possible, Do, AllBlamed, StartDue, StopDue;
    ServeAllBlamed(c, y, w, e, late);
    var n := Do(c, y, Serve(w, e));
    if y.manager.past.broken && !late {
      var x: W :| x in y.lives && StartDue(y, x);
      DueLives(n, x);
    }
    if late && !y.manager.past.broken {
      var x: W :| x in y.lives && StopDue(y, x);
      DueLives(n, x);
    }
  }

  lemma DueLives(n: Server, x: W)
    ensures StartDue(n, x) || StopDue(n, x) ==> x in n.lives
  {
  }

  lemma {:induction false} BlameOverRun(c: Setup, y: Server, run: seq<Action>, late: bool)
    requires Sane(c, y) && c.session.Valid() && Runs(c, y, run) && Blamed(y, late)
    ensures Blamed(After(c, y, run), late || RefusedLate(c, y, run))
    decreases |run|
  {
    hide Sane, Blamed, Do, Possible, LateRefusal;
    if run != [] {
      DoKeeps(c, y, run[0]);
      match run[0] {
        case Manage(h, pick) => ManageBlames(c, y, h, pick, late);
        case Serve(w, e) => ServeBlames(c, y, w, e, late);
      }
      BlameOverRun(c, Do(c, y, run[0]), run[1..], late || Late(y, run[0]));
    }
  }

  /** A stopped manager has heard everything. */
  lemma NothingDue(c: Setup, y: Server, late: bool)
    requires Sane(c, y) && Blamed(y, late) && y.manager.intern.IntStopped?
    ensures y.manager.past.broken <==> late
  {
    hide Inv, AllBlamed;
    StoppedKeepsNothing(c.manager, y.manager);
  }

  lemma NewBlamed()
    ensures Blamed(New(), false)
  {
  }

  /** When the manager's assertion about a session's answer to its stop fails.  In
      every run of a new server that has stopped, an assertion of the manager
      failed if and only if the start of some session was refused after the stop
      of that session had been issued. */
  lemma BrokenIffRefusedLate(c: Setup, run: seq<Action>)
    requires c.manager.Valid() && c.session.Valid() && Sane(c, New()) && Runs(c, New(), run)
    requires After(c, New(), run).manager.intern.IntStopped?
    ensures After(c, New(), run).manager.past.broken <==> RefusedLate(c, New(), run)
  {
    hide Sane, Blamed, Runs, After, RefusedLate, New;
    NewBlamed();
    BlameOverRun(c, New(), run, false);
    NothingDue(c, After(c, New(), run), RefusedLate(c, New(), run));
  }

  /** Every session that the manager gives back is at rest, which its reset takes
      for granted; and the manager gives a session back only in a completion for
      it. */
  lemma GivenBackAtRest(c: Setup, y: Server, h: Happening, pick: nat, w: W, env: SS.Env)
    requires Sane(c, y) && Possible(y, Manage(h, pick)) && w in y.lives && env.Valid()
    requires !StillHolds(y.manager, Step(c.manager, y.manager, h.event, h.env, h.alloc), w)
    ensures IsCompletion(h.event) && h.event.w == w
    ensures y.lives[w].s.pending == 0 && SS.Enabled(y.lives[w].s, SS.Reset, env)
  {
    hide Step, Bound;
    EachFate(c, y, h, pick, w, true, true);
  }

  /** Whatever the manager and its clients do, what holds of a session alone holds
      of every session of the server: it echoes, its operations are counted, its
      timer is armed, and only started sessions keep operations in flight. */
  lemma EverySession(c: Setup, y: Server, run: seq<Action>, w: W)
    requires Sane(c, y) && c.session.Valid() && Runs(c, y, run) && w in After(c, y, run).lives
    ensures var s := After(c, y, run).lives[w].s;
            SR.Counted(s) && SR.Flowing(c.session, s) && SR.Echoing(s) && SR.TimerArmed(c.session, s) && SR.HandlersParked(s)
  {
    SR.EveryRun(c.session, After(c, y, run).lives[w].s, []);
  }

  /** At most one wrapper is given a session in one step. */
  lemma OneNewcomer(c: Setup, y: Server, h: Happening, v: W, w: W)
    requires Sane(c, y) && Enabled(y.manager, h.event, h.env, h.alloc)
    requires var r := Step(c.manager, y.manager, h.event, h.env, h.alloc);
             v in Newcomers(y.manager, r) && w in Newcomers(y.manager, r)
    ensures v == w
  {
    hide Step;
    SessionKept(c.manager, y.manager, h.event, h.env, h.alloc, v);
    SessionKept(c.manager, y.manager, h.event, h.env, h.alloc, w);
  }

  /** What ends a session is what its end is charged with: the wait that the
      manager hears of tells the cause that the session recorded, so that a peer
      that hung up counts as out of work, a silent one as timed out, and any other
      failure as an error. */
  lemma ChargedWithItsCause(c: Setup, y: Server, h: Happening, pick: nat)
    requires Sane(c, y) && Possible(y, Manage(h, pick))
    requires h.event.SessionWaited? && ViewOf(y.manager, h.event.w).state.Work?
    ensures var cause := y.lives[h.event.w].s.mail.waitError;
            cause.Failed() && ManagerCounts.Charge(y.manager, h.event) == Some(cause)
  {
    hide SP.Inv, P.MailTracked, Q.WaitTracked, Inv;
    var w := h.event.w;
    HeldSound(c, y, w);
    var l := y.lives[w];
    Q.WaitReplied(l.s, l.t, h.event.error);
  }
}

/** The manager asserts that a session never refuses its stop.  Here is a run of the
    whole server in which one does: the stop is issued while the start is in
    flight, and the start is refused. */
module StopRefused {
  import opened Errors
  import opened ExternRequests
  import opened SessionWrappers
  import opened ManagerSpec
  import opened ManagerProofs
  import opened ManagerSteps
  import opened ManagerDrain
  import SS = SessionSpec
  import SP = SessionProofs
  import SR = SessionRuns
  import P = StopProtocol
  import E = EchoServer

  const REFUSED := Other(1)

  // ----- the session's side

  lemma RefusedStart(cfg: SS.Config, s: SS.State, env: SS.Env)
    requires SP.Inv(cfg, s) && env.Valid() && s.extern.ExtReady? && s.mail.issued == {}
    ensures SS.Enabled(s, SS.Start(0, REFUSED), env)
    ensures var r := SS.Step(cfg, s, SS.Start(0, REFUSED), env);
            r.extern.ExtStopped? && r.mail.issued == {0} && r.mail.posted == s.mail.posted + [Completion(0, REFUSED)]
  {
    hide SS.ContinueWork;
  }

  lemma RefusedStop(cfg: SS.Config, s: SS.State, env: SS.Env)
    requires SP.Inv(cfg, s) && env.Valid() && s.extern.ExtStopped? && s.mail.issued == {0}
    ensures SS.Enabled(s, SS.Stop(1), env)
    ensures SS.Step(cfg, s, SS.Stop(1), env).mail.posted == s.mail.posted + [Completion(1, InvalidState)]
  {
  }

  /** A fresh session whose start is refused answers the stop that was asked
      right after it with invalid_state. */
  lemma RefusedLife(cfg: SS.Config, s: SS.State, env: SS.Env)
    requires SP.Inv(cfg, s) && env.Valid() && s.extern.ExtReady? && s.mail.issued == {} && s.mail.posted == []
    ensures var run := [SR.Happening(SS.Start(0, REFUSED), env), SR.Happening(SS.Stop(1), env)];
            && SR.Runs(cfg, s, run)
            && SR.After(cfg, s, run).mail.posted == [Completion(0, REFUSED), Completion(1, InvalidState)]
  {
    hide SS.Step, SS.Enabled, SR.After, SR.Runs;
    var h1, h2 := SR.Happening(SS.Start(0, REFUSED), env), SR.Happening(SS.Stop(1), env);
    RefusedStart(cfg, s, env);
    SP.StepKeeps(cfg, s, h1.event, env);
    var r := SS.Step(cfg, s, h1.event, env);
    RefusedStop(cfg, r, env);
    SP.StepKeeps(cfg, r, h2.event, env);
    RunOfTwo(cfg, s, r, h1, h2);
  }

  lemma RunOfTwo(cfg: SS.Config, s: SS.State, r: SS.State, h: SR.Happening, k: SR.Happening)
    requires SP.Inv(cfg, s) && SS.Enabled(s, h.event, h.env) && r == SS.Step(cfg, s, h.event, h.env)
    requires SP.Inv(cfg, r) && SS.Enabled(r, k.event, k.env) && SP.Inv(cfg, SS.Step(cfg, r, k.event, k.env))
    ensures SR.Runs(cfg, s, [h, k])
    ensures SR.After(cfg, s, [h, k]) == SS.Step(cfg, r, k.event, k.env)
  {
    hide SS.Step, SS.Enabled;
    assert [h, k][1..] == [k] && [k][1..] == [];
    assert SR.Runs(cfg, SS.Step(cfg, r, k.event, k.env), []);
    assert SR.Runs(cfg, r, [k]);
    assert SR.After(cfg, r, [k]) == SS.Step(cfg, r, k.event, k.env);
  }

  // ----- the manager's side

  const ONE := Config(1, 0, 1)

  const ANSWERS := Env(Success, Success, 0)

  const NEXT := ANSWERS.(session := 1)

  lemma Accepting(w: W)
    ensures Inv(ONE, Initial()) && Enabled(Initial(), Event.Start(0), ANSWERS, Some(w))
    ensures var s := Step(ONE, Initial(), Event.Start(0), ANSWERS, Some(w));
            && s.intern.IntWork? && s.extern.ExtWork? && s.ops == Ops(Some(w), {}, {}, {}, false)
            && s.lists == Lists([], [], None) && s.past.held == {0} && s.views == map[w := Attached(0)]
            && s.mail.issued == {0} && s.past.broken == false
  {
    InitialInv(ONE);
  }

  lemma Starting(s: State, w: W)
    requires Inv(ONE, s) && s.intern.IntWork? && s.extern.ExtWork?
    requires s.ops == Ops(Some(w), {}, {}, {}, false) && s.lists == Lists([], [], None)
    requires s.views == map[w := Attached(0)] && s.past.held == {0}
    ensures Enabled(s, AcceptDone(w, Success), NEXT, None)
    ensures var r := Step(ONE, s, AcceptDone(w, Success), NEXT, None);
            && r.intern.IntWork? && r.extern.ExtWork? && r.ops == Ops(None, {w}, {}, {}, false)
            && r.lists == Lists([w], [], None) && r.past.held == {0}
            && r.views == map[w := Asked(Attached(0), AskStart)] && r.mail == s.mail
  {
  }

  lemma Stopping(s: State, w: W)
    requires Inv(ONE, s) && s.intern.IntWork? && s.extern.ExtWork?
    requires s.ops == Ops(None, {w}, {}, {}, false) && s.lists == Lists([w], [], None)
    requires s.views == map[w := Asked(Attached(0), AskStart)] && s.past.held == {0} && s.mail.issued == {0}
    ensures Enabled(s, Event.Stop(1), NEXT, None)
    ensures var r := Step(ONE, s, Event.Stop(1), NEXT, None);
            && r.intern.IntStop? && r.ops == Ops(None, {w}, {}, {w}, false) && r.past.held == {0}
            && r.views == map[w := Asked(Asked(Attached(0), AskStart), AskStop)]
  {
    var i := s.(mail := IssueMail(s.mail, 1));
    var b := StopBegun(i.(extern := ExtStop, mail := CompleteExternWait(i.mail, OperationAborted)), OperationAborted);
    StopBatchUnfolds(b, Some(w), 1);
    StopBatchEnds(StopNext(b, w), Next(b.lists.active, w), 0);
    assert Next([w], w).None?;
  }

  lemma StartRefused(s: State, w: W)
    requires Inv(ONE, s) && s.intern.IntStop? && s.past.held == {0}
    requires s.ops == Ops(None, {w}, {}, {w}, false)
    requires s.views == map[w := Asked(Asked(Attached(0), AskStart), AskStop)]
    ensures Enabled(s, SessionStarted(w, REFUSED), NEXT, None)
    ensures var r := Step(ONE, s, SessionStarted(w, REFUSED), NEXT, None);
            && r.intern.IntStop? && r.ops == Ops(None, {}, {}, {w}, false) && r.past.held == {0}
            && r.views == map[w := s.views[w].(pending := 1)]
  {
  }

  lemma Refused(s: State, w: W)
    requires Inv(ONE, s) && s.intern.IntStop? && s.past.held == {0}
    requires s.ops == Ops(None, {}, {}, {w}, false)
    ensures Enabled(s, SessionStopped(w, InvalidState), NEXT, None)
    ensures Step(ONE, s, SessionStopped(w, InvalidState), NEXT, None).past.broken
  {
    StepKeeps(ONE, s, SessionStopped(w, InvalidState), NEXT, None);
  }

  // ----- both together

  /** The server holds one session. */
  ghost predicate Only(c: E.Setup, y: E.Server, m: State, w: W, l: E.Life) {
    E.Sane(c, y) && c.session.Valid() && y.manager == m && y.lives == map[w := l]
  }

  function Managing(event: Event): E.Action { E.Manage(Happening(event, NEXT, None), 0) }

  function Serving(w: W, event: SS.Event, env: SS.Env): E.Action { E.Serve(w, SR.Happening(event, env)) }

  /** The first session of a new server waits to be accepted. */
  lemma FirstSession(c: E.Setup, w: W)
    requires c.manager == ONE && c.session.Valid()
    ensures var a := E.Manage(Happening(Event.Start(0), ANSWERS, Some(w)), 0);
            && E.Sane(c, E.New()) && E.Possible(E.New(), a)
            && Only(c, E.Do(c, E.New(), a), Step(ONE, Initial(), Event.Start(0), ANSWERS, Some(w)), w,
                    E.Born(SS.Initial()))
  {
    hide Step, E.Sane;
    Accepting(w);
    E.NewSane(c);
    E.DoKeeps(c, E.New(), E.Manage(Happening(Event.Start(0), ANSWERS, Some(w)), 0));
  }

  /** The manager goes on and the session stays. */
  lemma Manages(c: E.Setup, y: E.Server, m: State, w: W, l: E.Life, event: Event)
    requires c.manager == ONE && Only(c, y, m, w, l) && Enabled(m, event, NEXT, None) && E.Delivered(y, event)
    requires var r := Step(ONE, m, event, NEXT, None);
             w in m.views && r.views.Keys == {w} && m.views[w].session == r.views[w].session == Some(0)
    ensures E.Possible(y, Managing(event))
    ensures Only(c, E.Do(c, y, Managing(event)), Step(ONE, m, event, NEXT, None), w, l)
  {
    hide Step, E.Sane;
    E.DoKeeps(c, y, Managing(event));
  }

  lemma Serves(c: E.Setup, y: E.Server, m: State, w: W, l: E.Life, event: SS.Event, env: SS.Env)
    requires Only(c, y, m, w, l) && SS.Enabled(l.s, event, env) && !event.Reset? && w in m.views
    requires l.t.asked + P.Requests(event) <= m.views[w].asked
    ensures SP.Inv(c.session, l.s) && E.Possible(y, Serving(w, event, env))
    ensures Only(c, E.Do(c, y, Serving(w, event, env)), m, w,
                 E.Life(SS.Step(c.session, l.s, event, env), P.Next(l.t, event)))
  {
    hide SS.Step, SS.Enabled, E.Sane;
    LifeInv(c, y, w);
    E.DoKeeps(c, y, Serving(w, event, env));
  }

  lemma LifeInv(c: E.Setup, y: E.Server, w: W)
    requires E.Sane(c, y) && w in y.lives
    ensures SP.Inv(c.session, y.lives[w].s)
  {
  }

  /** The session refuses to start. */
  lemma ServesStart(c: E.Setup, y: E.Server, m: State, w: W, env: SS.Env)
    requires Only(c, y, m, w, E.Born(SS.Initial())) && env.Valid()
    requires w in m.views && m.views[w].asked == [AskStart, AskStop]
    ensures var a := Serving(w, SS.Start(0, REFUSED), env);
            && E.Possible(y, a)
            && var z := E.Do(c, y, a);
               && w in z.lives && Only(c, z, m, w, z.lives[w])
               && z.lives[w].t.asked == [AskStart] && z.lives[w].t.start == Some(0)
               && z.lives[w].s.extern.ExtStopped? && z.lives[w].s.mail.issued == {0}
               && z.lives[w].s.mail.posted == [Completion(0, REFUSED)]
  {
    hide SS.Step, SS.Enabled, SP.Inv, E.Sane, E.Do, E.Possible;
    var l := E.Born(SS.Initial());
    LifeInv(c, y, w);
    RefusedStart(c.session, l.s, env);
    Serves(c, y, m, w, l, SS.Start(0, REFUSED), env);
  }

  /** And it refuses the stop that was asked meanwhile. */
  lemma ServesStop(c: E.Setup, z: E.Server, m: State, w: W, k: E.Life, env: SS.Env)
    requires Only(c, z, m, w, k) && env.Valid() && w in m.views && m.views[w].asked == [AskStart, AskStop]
    requires k.t.asked == [AskStart] && k.t.start == Some(0) && k.s.extern.ExtStopped? && k.s.mail.issued == {0}
    requires k.s.mail.posted == [Completion(0, REFUSED)]
    ensures var b := Serving(w, SS.Stop(1), env);
            && E.Possible(z, b)
            && var n := E.Do(c, z, b);
               && w in n.lives && Only(c, n, m, w, n.lives[w])
               && n.lives[w].t.start == Some(0) && n.lives[w].t.stop == Some(1)
               && n.lives[w].s.mail.posted == [Completion(0, REFUSED), Completion(1, InvalidState)]
  {
    hide SS.Step, SS.Enabled, SP.Inv, E.Sane, E.Do, E.Possible;
    LifeInv(c, z, w);
    RefusedStop(c.session, k.s, env);
    Serves(c, z, m, w, k, SS.Stop(1), env);
  }

  /** The session's two answers reach the manager. */
  lemma BothReplied(m: Mail, start: Option<nat>, stop: Option<nat>)
    requires m.posted == [Completion(0, REFUSED), Completion(1, InvalidState)] && start == Some(0) && stop == Some(1)
    ensures P.Replied(m, start, REFUSED) && P.Replied(m, stop, InvalidState)
  {
    assert m.posted[0] == Completion(0, REFUSED) && m.posted[1] == Completion(1, InvalidState);
  }

  lemma RunOfMore(c: E.Setup, y: E.Server, a: E.Action, rest: seq<E.Action>)
    requires E.Sane(c, y) && c.session.Valid() && E.Possible(y, a) && E.Sane(c, E.Do(c, y, a))
    requires E.Runs(c, E.Do(c, y, a), rest)
    ensures E.Runs(c, y, [a] + rest) && E.After(c, y, [a] + rest) == E.After(c, E.Do(c, y, a), rest)
  {
    hide E.Sane, E.Possible, E.Do;
    assert ([a] + rest)[1..] == rest;
  }

  /** From the session's refusals to the failed assertion. */
  lemma Hears(c: E.Setup, y: E.Server, m: State, w: W, l: E.Life)
    requires c.manager == ONE && Only(c, y, m, w, l) && Inv(ONE, m) && m.intern.IntStop? && m.past.held == {0}
    requires m.ops == Ops(None, {w}, {}, {w}, false) && m.views == map[w := Asked(Asked(Attached(0), AskStart), AskStop)]
    requires l.t.start == Some(0) && l.t.stop == Some(1)
    requires l.s.mail.posted == [Completion(0, REFUSED), Completion(1, InvalidState)]
    ensures var run := [Managing(SessionStarted(w, REFUSED)), Managing(SessionStopped(w, InvalidState))];
            E.Runs(c, y, run) && E.After(c, y, run).manager.past.broken
  {
    hide Step, Enabled, E.Sane, Inv;
    var h1, h2 := Managing(SessionStarted(w, REFUSED)), Managing(SessionStopped(w, InvalidState));
    BothReplied(l.s.mail, l.t.start, l.t.stop);
    StartRefused(m, w);
    Manages(c, y, m, w, l, SessionStarted(w, REFUSED));
    var r := Step(ONE, m, SessionStarted(w, REFUSED), NEXT, None);
    StepKeeps(ONE, m, SessionStarted(w, REFUSED), NEXT, None);
    var z := E.Do(c, y, h1);
    Refused(r, w);
    E.DoKeeps(c, z, h2);
    assert E.Runs(c, E.Do(c, z, h2), []);
    RunOfMore(c, z, h2, []);
    RunOfMore(c, y, h1, [h2]);
    assert [h2] + [] == [h2] && [h1] + [h2] == [h1, h2];
  }

  /** The assertion can fail.  A new server accepts one session and asks it to
      start; it is stopped meanwhile and asks the session to stop; the session's
      start is refused because its socket options cannot be applied, and so it
      answers the stop with invalid_state. */
  lemma AssertionCanFail(c: E.Setup, w: W, env: SS.Env)
    requires c.manager == ONE && c.session.Valid() && env.Valid()
    ensures var run := [E.Manage(Happening(Event.Start(0), ANSWERS, Some(w)), 0), Managing(AcceptDone(w, Success)),
                        Managing(Event.Stop(1)), Serving(w, SS.Start(0, REFUSED), env),
                        Serving(w, SS.Stop(1), env), Managing(SessionStarted(w, REFUSED)),
                        Managing(SessionStopped(w, InvalidState))];
            E.Sane(c, E.New()) && E.Runs(c, E.New(), run) && E.After(c, E.New(), run).manager.past.broken
  {
    hide Step, Enabled, E.Sane, Inv, E.Do, E.Possible, E.Runs, E.After;
    var l := E.Born(SS.Initial());
    var a1, a2 := E.Manage(Happening(Event.Start(0), ANSWERS, Some(w)), 0), Managing(AcceptDone(w, Success));
    var a3, a4, a5 := Managing(Event.Stop(1)), Serving(w, SS.Start(0, REFUSED), env), Serving(w, SS.Stop(1), env);
    Accepting(w);
    var m1 := Step(ONE, Initial(), Event.Start(0), ANSWERS, Some(w));
    StepKeeps(ONE, Initial(), Event.Start(0), ANSWERS, Some(w));
    FirstSession(c, w);
    var y1 := E.Do(c, E.New(), a1);
    Starting(m1, w);
    var m2 := Step(ONE, m1, AcceptDone(w, Success), NEXT, None);
    StepKeeps(ONE, m1, AcceptDone(w, Success), NEXT, None);
    Manages(c, y1, m1, w, l, AcceptDone(w, Success));
    var y2 := E.Do(c, y1, a2);
    Stopping(m2, w);
    var m3 := Step(ONE, m2, Event.Stop(1), NEXT, None);
    StepKeeps(ONE, m2, Event.Stop(1), NEXT, None);
    Manages(c, y2, m2, w, l, Event.Stop(1));
    var y3 := E.Do(c, y2, a3);
    ServesStart(c, y3, m3, w, env);
    var y4 := E.Do(c, y3, a4);
    ServesStop(c, y4, m3, w, y4.lives[w], env);
    var y5 := E.Do(c, y4, a5);
    Hears(c, y5, m3, w, y5.lives[w]);
    var rest := [Managing(SessionStarted(w, REFUSED)), Managing(SessionStopped(w, InvalidState))];
    RunOfMore(c, y4, a5, rest);
    RunOfMore(c, y3, a4, [a5] + rest);
    RunOfMore(c, y2, a3, [a4] + ([a5] + rest));
    RunOfMore(c, y1, a2, [a3] + ([a4] + ([a5] + rest)));
    RunOfMore(c, E.New(), a1, [a2] + ([a3] + ([a4] + ([a5] + rest))));
    assert [a1] + ([a2] + ([a3] + ([a4] + ([a5] + rest)))) == [a1, a2, a3, a4, a5, rest[0], rest[1]];
  }
}

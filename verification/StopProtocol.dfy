/** The protocol between the manager and a session.  The manager asks a session
    to start, to wait and to stop in this order; here is what the session answers
    to the stop, and why it may be reset once nothing of it is outstanding. */
module StopProtocol {
  import opened Errors
  import opened ExternRequests
  import opened SessionSpec
  import opened SessionProofs
  import opened SessionFrames
  import opened SessionRuns
  import R = SessionWrappers

  /** What a run asks of the session. */
  function Requests(event: Event): seq<R.Request> {
    if event.Start? then [R.AskStart] else if event.Wait? then [R.AskWait]
    else if event.Stop? then [R.AskStop] else []
  }

  function Asked(run: seq<Happening>): seq<R.Request> {
    if run == [] then [] else Requests(run[0].event) + Asked(run[1..])
  }

  /** What is known of the protocol so far: what was asked, whether the start was
      refused, which requests are the start, the wait and the stop, and how much
      had been posted before. */
  datatype Track = Track(asked: seq<R.Request>, refused: bool, start: Option<nat>, wait: Option<nat>,
                         stop: Option<nat>, from: nat)

  function Next(t: Track, event: Event): Track {
    t.(asked := t.asked + Requests(event),
       refused := t.refused || (event.Start? && event.options.Failed()),
       start := if event.Start? then Some(event.id) else t.start,
       wait := if event.Wait? then Some(event.id) else t.wait,
       stop := if event.Stop? then Some(event.id) else t.stop)
  }

  /** Nothing was asked yet. */
  function NewTrack(m: Mail): Track { Track([], false, None, None, None, |m.posted|) }

  function Final(t: Track, run: seq<Happening>): Track
    decreases |run|
  {
    if run == [] then t else Final(Next(t, run[0].event), run[1..])
  }

  function StopAnswer(t: Track): Error { if t.refused then InvalidState else Success }

  /** Requests still in the session are known to it, and none but the stop
      request itself is parked as the stop. */
  predicate ParkedTracked(m: Mail, t: Track) {
    && (t.start.Some? ==> t.start.value in m.issued && t.start != t.stop)
    && (t.stop.Some? ==> t.stop.value in m.issued)
    && (m.waitHandler.Some? ==> m.waitHandler.value in m.issued && m.waitHandler != t.stop && m.waitHandler != t.start)
    && (m.stopHandler.Some? ==> m.stopHandler == t.stop && !t.refused)
  }

  /** What was posted answers known requests: a start with an error exactly when
      it was refused, a stop only once it is not parked any more. */
  predicate AnswerTracked(m: Mail, t: Track, i: nat)
    requires i < |m.posted|
  {
    var c := m.posted[i];
    && c.id in m.issued
    && (t.start == Some(c.id) ==> t.from <= i && (c.error.Failed() <==> t.refused))
    && (t.stop == Some(c.id) ==> t.from <= i && c.error == StopAnswer(t) && m.stopHandler.None?)
  }

  predicate MailTracked(m: Mail, t: Track) {
    t.from <= |m.posted| && ParkedTracked(m, t) && forall i | 0 <= i < |m.posted| :: AnswerTracked(m, t, i)
  }

  predicate ExternTracked(e: Extern, t: Track) {
    && R.InOrder(t.asked) && (t.stop.Some? <==> R.AskStop in t.asked) && (t.start.Some? <==> R.AskStart in t.asked)
    && (t.asked == [] ==> e.ExtReady? && !t.refused)
    && (t.asked != [] ==> if t.refused then e.ExtStopped?
                          else if t.stop.None? then e.ExtWork? else e.ExtStop? || e.ExtStopped?)
  }

  predicate Tracked(s: State, t: Track) { ExternTracked(s.extern, t) && MailTracked(s.mail, t) }

  /** The stop was not answered yet. */
  predicate StopOpen(m: Mail, t: Track) {
    forall i | 0 <= i < |m.posted| :: t.stop != Some(m.posted[i].id)
  }

  /** Issuing a request, or parking one, answers none. */
  lemma NothingPosted(m: Mail, n: Mail, t: Track)
    requires MailTracked(m, t) && ParkedTracked(n, t) && n.posted == m.posted && m.issued <= n.issued
    requires n.stopHandler == m.stopHandler || StopOpen(m, t)
    ensures MailTracked(n, t)
  {
    forall i | 0 <= i < |n.posted| ensures AnswerTracked(n, t, i) {
      assert AnswerTracked(m, t, i);
    }
  }

  lemma ForwardTracked(m: Mail, n: Mail, t: Track)
    requires MailTracked(m, t) && Forward(m, n)
    ensures MailTracked(n, t)
  {
    forall i | 0 <= i < |n.posted| ensures AnswerTracked(n, t, i) {
      if i < |m.posted| {
        assert n.posted[i] == m.posted[i] && AnswerTracked(m, t, i);
      } else {
        assert i == |m.posted| || i == |m.posted| + 1;
      }
    }
  }

  lemma PostTracked(m: Mail, t: Track, id: nat, error: Error)
    requires MailTracked(m, t) && id in m.issued
    requires t.start == Some(id) ==> (error.Failed() <==> t.refused)
    requires t.stop == Some(id) ==> error == StopAnswer(t) && m.stopHandler.None?
    ensures MailTracked(PostMail(m, id, error), t)
  {
    var n := PostMail(m, id, error);
    forall i | 0 <= i < |n.posted| ensures AnswerTracked(n, t, i) {
      assert i < |m.posted| ==> n.posted[i] == m.posted[i] && AnswerTracked(m, t, i);
    }
  }

  /** A request that was just made becomes the start, or the stop. */
  lemma Named(m: Mail, t: Track, u: Track, id: nat)
    requires MailTracked(m, t) && id !in m.issued && u.from == t.from
    requires || (t.start.None? && t.stop.None? && m.stopHandler.None? && u.start == Some(id) && u.stop.None?)
             || (t.stop.None? && m.stopHandler.None? && u.stop == Some(id) && u.start == t.start && u.refused == t.refused)
    ensures MailTracked(IssueMail(m, id), u)
  {
    forall i | 0 <= i < |m.posted| ensures AnswerTracked(IssueMail(m, id), u, i) {
      assert AnswerTracked(m, t, i);
    }
  }

  // ----- one step

  lemma StartTracked(cfg: Config, s: State, id: nat, options: Error, env: Env, t: Track)
    requires Inv(cfg, s) && Enabled(s, Start(id, options), env) && Tracked(s, t)
    requires R.InOrder(Next(t, Start(id, options)).asked)
    ensures Tracked(Step(cfg, s, Start(id, options), env), Next(t, Start(id, options)))
  {
    var u := Next(t, Start(id, options));
    OrderStart(t.asked);
    assert u.asked == [R.AskStart];
    var i := s.Issue(id);
    Named(s.mail, t, u, id);
    if options.Failed() {
      PostTracked(i.mail, u, id, options);
    } else {
      var s1 := i.(extern := ExtWork, started := true).Touched(env.now);
      WorkSteady(cfg, s1, env);
      ForwardTracked(i.mail, ContinueWork(cfg, s1, env).mail, u);
      PostTracked(ContinueWork(cfg, s1, env).mail, u, id, Success);
    }
  }

  lemma WaitTracked(cfg: Config, s: State, id: nat, env: Env, t: Track)
    requires Inv(cfg, s) && Enabled(s, Wait(id), env) && Tracked(s, t)
    requires R.InOrder(Next(t, Wait(id)).asked)
    ensures Tracked(Step(cfg, s, Wait(id), env), Next(t, Wait(id)))
  {
    hide MailTracked;
    var u := Next(t, Wait(id));
    OrderWait(t.asked);
    assert u.asked == [R.AskStart, R.AskWait];
    WaitServed(s, id, t);
    assert u == t.(asked := u.asked, wait := u.wait);
    AskedOnly(DoWait(s.Issue(id), id).mail, t, u);
  }

  lemma AskedOnly(m: Mail, t: Track, u: Track)
    requires MailTracked(m, t) && u == t.(asked := u.asked, wait := u.wait)
    ensures MailTracked(m, u)
  {
    forall i | 0 <= i < |m.posted| ensures AnswerTracked(m, u, i) {
      assert AnswerTracked(m, t, i);
    }
  }

  lemma WaitServed(s: State, id: nat, t: Track)
    requires MailTracked(s.mail, t) && id !in s.mail.issued
    ensures MailTracked(DoWait(s.Issue(id), id).mail, t)
  {
    var i := s.Issue(id);
    NothingPosted(s.mail, i.mail, t);
    PostTracked(i.mail, t, id, InvalidState);
    PostTracked(i.mail, t, id, i.mail.waitError);
    NothingPosted(s.mail, i.mail.(waitHandler := if i.mail.waitHandler.None? then Some(id) else i.mail.waitHandler), t);
  }

  lemma StopTracked(cfg: Config, s: State, id: nat, env: Env, t: Track)
    requires Inv(cfg, s) && Enabled(s, Stop(id), env) && Tracked(s, t)
    requires R.InOrder(Next(t, Stop(id)).asked)
    ensures Tracked(Step(cfg, s, Stop(id), env), Next(t, Stop(id)))
  {
    var u := Next(t, Stop(id));
    OrderStop(t.asked);
    var i := s.Issue(id);
    Named(s.mail, t, u, id);
    if t.refused {
      PostTracked(i.mail, u, id, InvalidState);
    } else {
      forall k | 0 <= k < |i.mail.posted| ensures u.stop != Some(i.mail.posted[k].id) {
        assert AnswerTracked(s.mail, t, k);
      }
      StopServed(cfg, i, id, env, u);
    }
  }

  lemma StopServed(cfg: Config, i: State, id: nat, env: Env, u: Track)
    requires MailTracked(i.mail, u) && StopOpen(i.mail, u) && i.mail.stopHandler.None? && id in i.mail.issued
    requires i.extern.ExtWork? && u.stop == Some(id) && u.start != Some(id) && !u.refused
    requires Accounted(i) && |i.data.buffer| <= cfg.capacity && cfg.Valid() && env.Valid()
    ensures var r := DoStop(cfg, i, id, env); MailTracked(r.mail, u) && (r.extern.ExtStop? || r.extern.ExtStopped?)
  {
    hide StartShutdown, MailTracked;
    var s1 := i.(extern := ExtStop, mail := CompleteExternWait(i.mail, OperationAborted));
    CompleteWaitForward(i.mail, OperationAborted);
    StopStaysOpen(i.mail, s1.mail, u);
    ForwardTracked(i.mail, s1.mail, u);
    var s2 := if s1.intern.IntWork? then StartShutdown(cfg, s1, OperationAborted, false, env) else s1;
    if s1.intern.IntWork? {
      StartShutdownSteady(cfg, s1, OperationAborted, false, env);
      StopStaysOpen(s1.mail, s2.mail, u);
      ForwardTracked(s1.mail, s2.mail, u);
    }
    PostTracked(s2.mail, u, id, Success);
    StopParks(s2.mail, u, id);
  }

  lemma StopParks(m: Mail, u: Track, id: nat)
    requires MailTracked(m, u) && StopOpen(m, u) && u.stop == Some(id) && !u.refused
    ensures MailTracked(m.(stopHandler := Some(id)), u)
  {
    NothingPosted(m, m.(stopHandler := Some(id)), u);
  }

  lemma StopStaysOpen(m: Mail, n: Mail, t: Track)
    requires Forward(m, n) && MailTracked(m, t) && StopOpen(m, t) && m.stopHandler.None?
    ensures StopOpen(n, t) && n.stopHandler.None?
  {
    forall i | 0 <= i < |n.posted| ensures t.stop != Some(n.posted[i].id) {
      assert i < |m.posted| ==> n.posted[i] == m.posted[i];
    }
  }

  lemma OrderStart(asked: seq<R.Request>)
    requires R.InOrder(asked + [R.AskStart])
    ensures asked == []
  {
    assert (asked + [R.AskStart])[|asked|] == R.AskStart;
  }

  lemma OrderWait(asked: seq<R.Request>)
    requires R.InOrder(asked + [R.AskWait])
    ensures asked == [R.AskStart]
  {
    assert (asked + [R.AskWait])[|asked|] == R.AskWait;
    assert asked == (asked + [R.AskWait])[..|asked|];
  }

  lemma OrderStop(asked: seq<R.Request>)
    requires R.InOrder(asked + [R.AskStop])
    ensures asked == [R.AskStart] || asked == [R.AskStart, R.AskWait]
  {
    assert (asked + [R.AskStop])[|asked|] == R.AskStop;
    assert asked == (asked + [R.AskStop])[..|asked|];
  }

  /** The completions of a session's own operations. */
  lemma CompletionTracked(cfg: Config, s: State, event: Event, env: Env, t: Track)
    requires Inv(cfg, s) && Enabled(s, event, env) && Tracked(s, t)
    requires event.ReadDone? || event.WriteDone? || event.TimerDone?
    ensures Tracked(Step(cfg, s, event, env), t)
  {
    var r := Step(cfg, s, event, env);
    match event {
      case ReadDone(error, bytes) => ReadFrame(cfg, s, error, bytes, env);
      case WriteDone(error, count) => WriteFrame(cfg, s, error, count, env);
      case TimerDone(error) => TimerFrame(cfg, s, error, env);
    }
    ForwardTracked(s.mail, r.mail, t);
  }

  lemma TrackedStep(cfg: Config, s: State, event: Event, env: Env, t: Track)
    requires Inv(cfg, s) && Enabled(s, event, env) && Tracked(s, t) && !event.Reset?
    requires R.InOrder(Next(t, event).asked)
    ensures Tracked(Step(cfg, s, event, env), Next(t, event))
  {
    if event.Start? {
      StartTracked(cfg, s, event.id, event.options, env, t);
    } else if event.Wait? {
      WaitTracked(cfg, s, event.id, env, t);
    } else if event.Stop? {
      StopTracked(cfg, s, event.id, env, t);
    } else {
      assert Next(t, event).asked == t.asked;
      CompletionTracked(cfg, s, event, env, t);
    }
  }

  // ----- what the answers tell

  /** The session posted `error` as the answer to request `id`. */
  predicate Replied(m: Mail, id: Option<nat>, error: Error) {
    exists i | 0 <= i < |m.posted| :: id == Some(m.posted[i].id) && m.posted[i].error == error
  }

  lemma StartReplied(s: State, t: Track, error: Error)
    requires Tracked(s, t) && Replied(s.mail, t.start, error)
    ensures R.AskStart in t.asked && (error.Failed() <==> t.refused)
  {
    var i :| 0 <= i < |s.mail.posted| && t.start == Some(s.mail.posted[i].id) && s.mail.posted[i].error == error;
    assert AnswerTracked(s.mail, t, i);
  }

  /** Once its stop is answered, the session is stopped. */
  lemma StopReplied(cfg: Config, s: State, t: Track, error: Error)
    requires Inv(cfg, s) && Tracked(s, t) && Replied(s.mail, t.stop, error)
    ensures R.AskStop in t.asked && error == StopAnswer(t) && s.extern.ExtStopped?
  {
    var i :| 0 <= i < |s.mail.posted| && t.stop == Some(s.mail.posted[i].id) && s.mail.posted[i].error == error;
    assert AnswerTracked(s.mail, t, i);
  }

  lemma StaysStopped(cfg: Config, s: State, event: Event, env: Env)
    requires Inv(cfg, s) && Enabled(s, event, env) && !event.Reset? && s.extern.ExtStopped?
    ensures Step(cfg, s, event, env).extern.ExtStopped?
  {
  }

  /** A session that was asked nothing, whose start was refused, or that is
      stopped, has no operation in flight. */
  lemma AtRest(cfg: Config, s: State, t: Track)
    requires Inv(cfg, s) && ExternTracked(s.extern, t)
    requires t.asked == [] || t.refused || s.extern.ExtStopped?
    ensures s.pending == 0
  {
    NeverStalls(cfg, s);
  }

  // ----- whole runs

  lemma AskedStep(t: Track, run: seq<Happening>)
    requires run != []
    ensures t.asked + Asked(run) == Next(t, run[0].event).asked + Asked(run[1..])
  {
    hide Requests;
    JoinRequests(t.asked, Requests(run[0].event), Asked(run[1..]));
  }

  lemma JoinRequests(a: seq<R.Request>, b: seq<R.Request>, c: seq<R.Request>)
    ensures a + (b + c) == (a + b) + c
  {
  }

  lemma InOrderPrefix(a: seq<R.Request>, b: seq<R.Request>)
    requires R.InOrder(a + b)
    ensures R.InOrder(a)
  {
    assert a == (a + b)[..|a|];
  }

  lemma {:induction false} TrackedOverRun(cfg: Config, s: State, run: seq<Happening>, t: Track)
    requires Inv(cfg, s) && Runs(cfg, s, run) && NoReset(run) && Tracked(s, t)
    requires R.InOrder(t.asked + Asked(run))
    ensures Tracked(After(cfg, s, run), Final(t, run))
    decreases |run|
  {
    if run != [] {
      var event, env := run[0].event, run[0].env;
      assert run[0] in run;
      var u := Next(t, event);
      AskedStep(t, run);
      InOrderPrefix(u.asked, Asked(run[1..]));
      StepKeeps(cfg, s, event, env);
      TrackedStep(cfg, s, event, env, t);
      TrackedOverRun(cfg, Step(cfg, s, event, env), run[1..], u);
    }
  }

  predicate StartRefused(run: seq<Happening>) {
    exists i | 0 <= i < |run| :: run[i].event.Start? && run[i].event.options.Failed()
  }

  lemma {:induction false} FinalTrack(t: Track, run: seq<Happening>)
    ensures Final(t, run).asked == t.asked + Asked(run) && Final(t, run).from == t.from
    ensures Final(t, run).refused <==> t.refused || StartRefused(run)
    decreases |run|
  {
    if run != [] {
      AskedStep(t, run);
      FinalTrack(Next(t, run[0].event), run[1..]);
      if i :| 1 <= i < |run| && run[i].event.Start? && run[i].event.options.Failed() {
        assert run[1..][i - 1] == run[i];
      }
    }
  }

  lemma {:induction false} FinalStop(t: Track, run: seq<Happening>, k: nat)
    requires k < |run| && run[k].event.Stop? && R.InOrder(t.asked + Asked(run))
    ensures Final(t, run).stop == Some(run[k].event.id)
    decreases |run|
  {
    hide R.InOrder;
    var u := Next(t, run[0].event);
    AskedStep(t, run);
    if k == 0 {
      assert u.asked[|t.asked|] == R.AskStop;
      NoMoreStops(u, run[1..]);
    } else {
      FinalStop(u, run[1..], k - 1);
    }
  }

  lemma {:induction false} NoMoreStops(t: Track, run: seq<Happening>)
    requires R.AskStop in t.asked && R.InOrder(t.asked + Asked(run))
    ensures Final(t, run).stop == t.stop
    decreases |run|
  {
    if run != [] {
      var u := Next(t, run[0].event);
      AskedStep(t, run);
      InOrderPrefix(u.asked, Asked(run[1..]));
      if run[0].event.Stop? {
        OrderStop(t.asked);
      }
      NoMoreStops(u, run[1..]);
    }
  }

  /** What a session answers to its stop.  In every life of a session that is
      asked in the manager's order, the stop is answered with invalid_state if
      and only if the start was refused because the socket options could not be
      applied; a session that started is stopped without an error. */
  lemma StopAnswered(cfg: Config, s: State, run: seq<Happening>, k: nat, i: nat)
    requires Inv(cfg, s) && Runs(cfg, s, run) && NoReset(run) && R.InOrder(Asked(run))
    requires s.extern.ExtReady? && MailTracked(s.mail, NewTrack(s.mail))
    requires k < |run| && run[k].event.Stop?
    requires i < |After(cfg, s, run).mail.posted| && After(cfg, s, run).mail.posted[i].id == run[k].event.id
    ensures After(cfg, s, run).mail.posted[i].error == if StartRefused(run) then InvalidState else Success
  {
    var t := NewTrack(s.mail);
    assert t.asked + Asked(run) == Asked(run);
    TrackedOverRun(cfg, s, run, t);
    FinalTrack(t, run);
    FinalStop(t, run, k);
    assert AnswerTracked(After(cfg, s, run).mail, Final(t, run), i);
  }

  /** A session that was asked nothing, whose start was refused, or whose stop
      was answered, has no operation in flight: its reset is safe. */
  lemma ReleasedAtRest(cfg: Config, s: State, run: seq<Happening>)
    requires Inv(cfg, s) && Runs(cfg, s, run) && NoReset(run) && R.InOrder(Asked(run))
    requires s.extern.ExtReady? && MailTracked(s.mail, NewTrack(s.mail))
    requires Asked(run) == [] || StartRefused(run)
             || (R.AskStop in Asked(run) && After(cfg, s, run).mail.stopHandler.None?)
    ensures After(cfg, s, run).pending == 0
  {
    var t := NewTrack(s.mail);
    assert t.asked + Asked(run) == Asked(run);
    TrackedOverRun(cfg, s, run, t);
    FinalTrack(t, run);
    NeverStalls(cfg, After(cfg, s, run));
  }
}

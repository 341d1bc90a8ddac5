/** What the completions of the acceptor and of the sessions keep. */
module ManagerCompletions {
  import opened Errors
  import opened SessionWrappers
  import opened ManagerSpec
  import opened ManagerLists
  import opened ManagerBooks
  import opened ManagerProofs

  /** What a completion does before the manager continues. */
  ghost predicate Passed(cfg: Config, s: State, r: State) {
    && Going(cfg, r) && r.past.held <= s.past.held && r.views.Keys == s.views.Keys
    && r.mail == s.mail && r.extern == s.extern && r.intern == s.intern && r.past.broken == s.past.broken
  }

  lemma PassedContinues(cfg: Config, s: State, r: State, env: Env, alloc: Option<W>)
    requires Passed(cfg, s, r) && Supply(s, env, alloc)
    ensures Settles(cfg, s, Continue(cfg, r, env, alloc))
  {
    ContinueKeeps(cfg, r, env, alloc);
  }

  /** Everything but the books that a completion must get right. */
  ghost predicate Sums(cfg: Config, s: State, r: State) {
    && Cursor(r) && Tally(r) && Capacity(cfg, r) && Parked(r)
    && (r.lists.stoppingEnd.Some? ==> r.ops.scheduled)
    && r.past.held <= s.past.held && r.views.Keys == s.views.Keys
    && r.mail == s.mail && r.extern == s.extern && r.intern == s.intern && r.past.broken == s.past.broken
    && (r.intern.IntStop? ==> !r.accept.AcceptReady?)
  }

  lemma BooksAndSums(cfg: Config, s: State, r: State)
    requires Core(cfg, s) && !s.intern.IntStopped? && !s.extern.ExtReady? && Book(r) && Sums(cfg, s, r)
    ensures Passed(cfg, s, r)
  {
  }

  /** Nobody but `w` changes between the two, and `w` is told to stop or keeps
      its state: nothing ahead of the cursor is lost. */
  lemma AheadStays(active: seq<W>, views: map<W, View>, next: map<W, View>, w: W, c: Option<W>)
    requires Ahead(active, views, c) && views.Keys == next.Keys && w in views
    requires forall x | x in views && x != w :: next[x] == views[x]
    requires next[w].state.Stop? || next[w].state == views[w].state || w !in active
    ensures Ahead(active, next, c)
  {
  }

  lemma AheadShrinks(active: seq<W>, views: map<W, View>, next: map<W, View>, w: W, c: Option<W>)
    requires NoDup(active) && w in active && (c.Some? ==> c.value in active)
    requires Ahead(active, views, c) && views.Keys == next.Keys
    requires forall x | x in views && x != w :: next[x] == views[x]
    ensures Ahead(Erase(active, w), next, if c == Some(w) then Next(active, w) else c)
  {
    var d := if c == Some(w) then Next(active, w) else c;
    var e := Erase(active, w);
    EraseMembers(active, w);
    FromAfterErase(active, w, c);
    FromMembers(active, c);
    EraseMembers(From(active, c), w);
    forall i | 0 <= i < |e| && e[i] !in From(e, d) ensures e[i] in next && next[e[i]].state.Stop? {
      assert e[i] in active && e[i] != w;
    }
  }

  // ----- recycling and leaving the list

  lemma SumsRecycle(cfg: Config, s: State, c: State, w: W)
    requires Sums(cfg, s, c) && w in c.views && (c.views[w].pending == 0 ==> c.views[w].session.Some?)
    ensures Sums(cfg, s, Recycle(cfg, c, w))
  {
    var r := Recycle(cfg, c, w);
    if c.intern.IntStop? {
      AheadStays(c.lists.active, c.views, r.views, w, c.lists.stoppingEnd);
    }
  }

  lemma SumsRemove(cfg: Config, s: State, c: State, w: W)
    requires Sums(cfg, s, c) && NoDup(c.lists.active) && w in c.lists.active && w in c.views
    ensures Sums(cfg, s, RemoveFromActive(Mark(c, w, WrapperState.Stopped), w))
  {
    var r := RemoveFromActive(Mark(c, w, WrapperState.Stopped), w);
    EraseMembers(c.lists.active, w);
    FromAfterErase(c.lists.active, w, c.lists.stoppingEnd);
    if c.intern.IntStop? {
      AheadShrinks(c.lists.active, c.views, r.views, w, c.lists.stoppingEnd);
    }
    if r.lists.stoppingEnd.Some? {
      assert c.lists.stoppingEnd.Some?;
    }
  }

  /** A wrapper whose completion came too late is recycled, or still busy. */
  lemma LateRecycles(cfg: Config, s: State, c: State, w: W, v: View, p: Place)
    requires At(c, w, v, p) && Sums(cfg, s, c) && v.session.Some?
    requires p.active ==> Sound(v, p)
    requires !p.active ==> v.pending == 0 && p == Place(false, false, false, false, false, false)
    ensures Book(Recycle(cfg, c, w)) && Sums(cfg, s, Recycle(cfg, c, w))
  {
    SumsRecycle(cfg, s, c, w);
    if p.active {
      Close(c, w, v, p);
    } else {
      RecycleCloses(cfg, c, w, v, p);
    }
  }

  /** A session that is over leaves the list and is recycled, unless a start or
      a wait of it is still to be answered. */
  lemma OverRecycles(cfg: Config, s: State, c: State, w: W, v: View, p: Place)
    requires At(c, w, v, p) && Sums(cfg, s, c) && v.session.Some? && p.active && !p.stopping
    requires !p.accepting && !p.recycled && !(p.starting && p.waiting)
    requires v.pending == Bit(p.starting) + Bit(p.waiting)
    requires p.starting ==> v.asked == [AskStart, AskStop]
    requires p.waiting ==> v.asked == [AskStart, AskWait, AskStop]
    ensures var r := Recycle(cfg, RemoveFromActive(Mark(c, w, WrapperState.Stopped), w), w);
            Book(r) && Sums(cfg, s, r)
  {
    var m := Mark(c, w, WrapperState.Stopped);
    var v' := v.(state := WrapperState.Stopped);
    MarkAt(c, w, v, p, WrapperState.Stopped);
    RemoveAt(m, w, v', p);
    RecycleCloses(cfg, RemoveFromActive(m, w), w, v', p.(active := false));
    SumsRemove(cfg, s, c, w);
    SumsRecycle(cfg, s, RemoveFromActive(m, w), w);
  }

  // ----- before each way on

  /** A completed start, charged with `error` or not yet charged at all. */
  lemma SumsStartDone(cfg: Config, s: State, w: W, error: Error)
    requires Core(cfg, s) && w in s.ops.starting && w in s.views
    requires !s.intern.IntStopped?
    ensures var c := StartCompleted(s, w);
            Sums(cfg, s, c.Count(c.stats.SessionStopped(error)))
  {
    var c := StartCompleted(s, w);
    if s.intern.IntStop? {
      AheadStays(s.lists.active, s.views, c.views, w, s.lists.stoppingEnd);
    }
  }

  lemma SumsWaitDone(cfg: Config, s: State, w: W, error: Error)
    requires Core(cfg, s) && w in s.ops.waiting && w in s.views
    requires !s.intern.IntStopped?
    ensures var c := WaitCompleted(s, w);
            Sums(cfg, s, c.Count(c.stats.SessionStopped(error)))
  {
    var c := WaitCompleted(s, w);
    if s.intern.IntStop? {
      AheadStays(s.lists.active, s.views, c.views, w, s.lists.stoppingEnd);
    }
  }

  lemma SumsStopDone(cfg: Config, s: State, w: W)
    requires Core(cfg, s) && w in s.ops.stopping && w in s.views
    requires !s.intern.IntStopped?
    ensures Sums(cfg, s, StopCompleted(s, w))
  {
    var c := StopCompleted(s, w);
    if s.intern.IntStop? {
      AheadStays(s.lists.active, s.views, c.views, w, s.lists.stoppingEnd);
    }
  }

  lemma SumsAskStop(cfg: Config, s: State, c: State, w: W)
    requires Sums(cfg, s, c) && w in c.views
    ensures Sums(cfg, s, StartSessionStop(c, w))
  {
    var r := StartSessionStop(c, w);
    if c.intern.IntStop? {
      AheadStays(c.lists.active, c.views, r.views, w, c.lists.stoppingEnd);
    }
  }

  /** A successful start at work: the session works on. */
  lemma SumsStartedAtWork(cfg: Config, s: State, w: W)
    requires Core(cfg, s) && w in s.ops.starting && w !in s.ops.waiting && w in s.views && s.intern.IntWork?
    ensures Sums(cfg, s, StartSessionWait(Mark(StartCompleted(s, w), w, WrapperState.Work), w))
  {
  }

  /** A successful start at stop: the session was never counted before it is
      told to stop. */
  lemma SumsStartedAtStop(cfg: Config, s: State, w: W)
    requires Core(cfg, s) && w in s.ops.starting && w in s.views && s.intern.IntStop?
    ensures var c := StartCompleted(s, w); Sums(cfg, s, c.(past := c.past.Uncounted()))
  {
    AheadStays(s.lists.active, s.views, StartCompleted(s, w).views, w, s.lists.stoppingEnd);
  }

  // ----- the session was started

  lemma StartDonePasses(cfg: Config, s: State, w: W, error: Error)
    requires Core(cfg, s) && w in s.ops.starting
    ensures Passed(cfg, s, SessionStartDone(cfg, s, w, error)) && w in s.views && !s.intern.IntStopped?
  {
    StartedRuns(cfg, s, w);
    if !s.views[w].state.Start? {
      StartedLate(cfg, s, w);
    } else if error.Failed() {
      StartFailed(cfg, s, w, error);
    } else if s.intern.IntWork? {
      StartedAtWork(cfg, s, w);
    } else {
      StartedAtStop(cfg, s, w);
    }
  }

  /** An operation is outstanding, so the manager is at work or stopping. */
  lemma StartedRuns(cfg: Config, s: State, w: W)
    requires Core(cfg, s) && w in s.ops.starting
    ensures !s.intern.IntStopped? && !s.extern.ExtReady? && w in s.views
    ensures ViewOf(StartCompleted(s, w), w).state == s.views[w].state
  {
    assert |s.ops.starting| > 0 by { assert s.ops.starting != {}; }
  }

  lemma StartedLate(cfg: Config, s: State, w: W)
    requires Core(cfg, s) && w in s.ops.starting && !s.extern.ExtReady? && !s.intern.IntStopped?
    requires w in s.views && !s.views[w].state.Start?
    ensures var c := StartCompleted(s, w);
            Passed(cfg, s, Recycle(cfg, c.Count(c.stats.SessionStopped(OperationAborted)), w))
  {
    var c := StartCompleted(s, w);
    var v, p := s.views[w], PlaceOf(s.lists, s.ops, w);
    Open(s, w);
    StartCompletes(s, w);
    var stats := c.stats.SessionStopped(OperationAborted);
    CountAt(c, w, v.(pending := v.pending - 1), p.(starting := false), stats);
    SumsStartDone(cfg, s, w, OperationAborted);
    LateRecycles(cfg, s, c.Count(stats), w, v.(pending := v.pending - 1), p.(starting := false));
    BooksAndSums(cfg, s, Recycle(cfg, c.Count(stats), w));
  }

  lemma StartFailed(cfg: Config, s: State, w: W, error: Error)
    requires Core(cfg, s) && w in s.ops.starting && !s.extern.ExtReady? && !s.intern.IntStopped?
    requires w in s.views && s.views[w].state.Start?
    ensures var c := StartCompleted(s, w);
            var q := Mark(c.Count(c.stats.SessionStopped(error)), w, WrapperState.Stopped);
            Passed(cfg, s, Recycle(cfg, RemoveFromActive(q, w), w))
  {
    var c := StartCompleted(s, w);
    var v, p := s.views[w], PlaceOf(s.lists, s.ops, w);
    Open(s, w);
    StartCompletes(s, w);
    var stats := c.stats.SessionStopped(error);
    CountAt(c, w, v.(pending := v.pending - 1), p.(starting := false), stats);
    SumsStartDone(cfg, s, w, error);
    OverRecycles(cfg, s, c.Count(stats), w, v.(pending := v.pending - 1), p.(starting := false));
    var q := Mark(c.Count(stats), w, WrapperState.Stopped);
    BooksAndSums(cfg, s, Recycle(cfg, RemoveFromActive(q, w), w));
  }

  lemma StartedAtWork(cfg: Config, s: State, w: W)
    requires Core(cfg, s) && w in s.ops.starting && !s.extern.ExtReady? && s.intern.IntWork?
    requires w in s.views && s.views[w].state.Start?
    ensures var c := StartCompleted(s, w);
            Passed(cfg, s, StartSessionWait(Mark(c, w, WrapperState.Work), w))
  {
    var c := StartCompleted(s, w);
    var v, p := s.views[w], PlaceOf(s.lists, s.ops, w);
    Open(s, w);
    StartCompletes(s, w);
    var v', p' := v.(pending := v.pending - 1), p.(starting := false);
    MarkAt(c, w, v', p', WrapperState.Work);
    var m := Mark(c, w, WrapperState.Work);
    AskWaitAt(m, w, v'.(state := WrapperState.Work), p');
    var r := StartSessionWait(m, w);
    Close(r, w, Asked(v'.(state := WrapperState.Work), AskWait), p'.(waiting := true));
    SumsStartedAtWork(cfg, s, w);
    BooksAndSums(cfg, s, r);
  }

  lemma StartedAtStop(cfg: Config, s: State, w: W)
    requires Core(cfg, s) && w in s.ops.starting && !s.extern.ExtReady? && s.intern.IntStop?
    requires w in s.views && s.views[w].state.Start?
    ensures var c := StartCompleted(s, w);
            Passed(cfg, s, StartSessionStop(c.(past := c.past.Uncounted()), w))
  {
    var c := StartCompleted(s, w);
    var v, p := s.views[w], PlaceOf(s.lists, s.ops, w);
    Open(s, w);
    StartCompletes(s, w);
    var v', p' := v.(pending := v.pending - 1), p.(starting := false);
    var u := c.(past := c.past.Uncounted());
    assert At(u, w, v', p');
    assert Asked(v', AskStop).asked == [AskStart, AskStop];
    AskStopCloses(u, w, v', p');
    var r := StartSessionStop(u, w);
    SumsStartedAtStop(cfg, s, w);
    SumsAskStop(cfg, s, u, w);
    BooksAndSums(cfg, s, r);
  }

  // ----- the wait for the session ended

  lemma WaitDonePasses(cfg: Config, s: State, w: W, error: Error)
    requires Core(cfg, s) && w in s.ops.waiting
    ensures Passed(cfg, s, SessionWaitDone(cfg, s, w, error)) && w in s.views && !s.intern.IntStopped?
  {
    WaitedRuns(cfg, s, w);
    if !s.views[w].state.Work? {
      WaitedLate(cfg, s, w);
    } else {
      Waited(cfg, s, w, error);
    }
  }

  lemma WaitedRuns(cfg: Config, s: State, w: W)
    requires Core(cfg, s) && w in s.ops.waiting
    ensures !s.intern.IntStopped? && !s.extern.ExtReady? && w in s.views
    ensures ViewOf(WaitCompleted(s, w), w).state == s.views[w].state
  {
    assert |s.ops.waiting| > 0 by { assert s.ops.waiting != {}; }
  }

  lemma WaitedLate(cfg: Config, s: State, w: W)
    requires Core(cfg, s) && w in s.ops.waiting && !s.extern.ExtReady? && !s.intern.IntStopped?
    requires w in s.views && !s.views[w].state.Work?
    ensures var c := WaitCompleted(s, w);
            Passed(cfg, s, Recycle(cfg, c.Count(c.stats.SessionStopped(OperationAborted)), w))
  {
    var c := WaitCompleted(s, w);
    var v, p := s.views[w], PlaceOf(s.lists, s.ops, w);
    Open(s, w);
    WaitCompletes(s, w);
    var stats := c.stats.SessionStopped(OperationAborted);
    CountAt(c, w, v.(pending := v.pending - 1), p.(waiting := false), stats);
    SumsWaitDone(cfg, s, w, OperationAborted);
    LateRecycles(cfg, s, c.Count(stats), w, v.(pending := v.pending - 1), p.(waiting := false));
    BooksAndSums(cfg, s, Recycle(cfg, c.Count(stats), w));
  }

  lemma Waited(cfg: Config, s: State, w: W, error: Error)
    requires Core(cfg, s) && w in s.ops.waiting && !s.extern.ExtReady? && !s.intern.IntStopped?
    requires w in s.views && s.views[w].state.Work?
    ensures var c := WaitCompleted(s, w);
            Passed(cfg, s, StartSessionStop(c.Count(c.stats.SessionStopped(error)), w))
  {
    var c := WaitCompleted(s, w);
    var v, p := s.views[w], PlaceOf(s.lists, s.ops, w);
    Open(s, w);
    WaitCompletes(s, w);
    var v', p' := v.(pending := v.pending - 1), p.(waiting := false);
    var stats := c.stats.SessionStopped(error);
    CountAt(c, w, v', p', stats);
    assert Asked(v', AskStop).asked == [AskStart, AskWait, AskStop];
    AskStopCloses(c.Count(stats), w, v', p');
    var r := StartSessionStop(c.Count(stats), w);
    SumsWaitDone(cfg, s, w, error);
    SumsAskStop(cfg, s, c.Count(stats), w);
    BooksAndSums(cfg, s, r);
  }

  // ----- the session was stopped

  /** The stop of an active session always finds it stopping; the manager's
      assertion about it holds when the session reports no error. */
  lemma StopDonePasses(cfg: Config, s: State, w: W, error: Error)
    requires Core(cfg, s) && w in s.ops.stopping
    ensures Passed(cfg, s.Check(!error.Failed()), SessionStopDone(cfg, s, w, error))
    ensures w in s.views && !s.intern.IntStopped?
  {
    StopChecked(cfg, s, w, error);
    StopDone(cfg, s.Check(!error.Failed()), w);
  }

  lemma StopChecked(cfg: Config, s: State, w: W, error: Error)
    requires Core(cfg, s) && w in s.ops.stopping
    ensures var b := s.Check(!error.Failed());
            && Core(cfg, b) && !b.intern.IntStopped? && !b.extern.ExtReady? && w in b.views
            && StopCompleted(b, w) == StopCompleted(s, w).Check(!error.Failed())
            && ViewOf(StopCompleted(s, w), w).state.Stop?
  {
    StoppedRuns(cfg, s, w);
    CheckKeeps(cfg, s, !error.Failed());
  }

  lemma CheckKeeps(cfg: Config, s: State, condition: bool)
    requires Core(cfg, s)
    ensures Core(cfg, s.Check(condition))
  {
  }

  lemma StoppedRuns(cfg: Config, s: State, w: W)
    requires Core(cfg, s) && w in s.ops.stopping
    ensures !s.intern.IntStopped? && !s.extern.ExtReady? && w in s.views && s.views[w].state.Stop?
    ensures ViewOf(StopCompleted(s, w), w).state == s.views[w].state
  {
    assert |s.ops.stopping| > 0 by { assert s.ops.stopping != {}; }
    Open(s, w);
  }

  lemma StopDone(cfg: Config, s: State, w: W)
    requires Core(cfg, s) && w in s.ops.stopping && !s.extern.ExtReady? && !s.intern.IntStopped?
    requires w in s.views
    ensures var c := StopCompleted(s, w);
            Passed(cfg, s, Recycle(cfg, RemoveFromActive(Mark(c, w, WrapperState.Stopped), w), w))
  {
    var c := StopCompleted(s, w);
    var v, p := s.views[w], PlaceOf(s.lists, s.ops, w);
    Open(s, w);
    StopCompletes(s, w);
    SumsStopDone(cfg, s, w);
    OverRecycles(cfg, s, c, w, v.(pending := v.pending - 1), p.(stopping := false));
    BooksAndSums(cfg, s, Recycle(cfg, RemoveFromActive(Mark(c, w, WrapperState.Stopped), w), w));
  }

  // ----- the acceptor is done

  lemma AcceptAtStop(cfg: Config, s: State, w: W, error: Error)
    requires Core(cfg, s) && s.ops.accepting == Some(w) && s.intern.IntStop?
    ensures Passed(cfg, s, AcceptedAtStop(cfg, s, w, error))
  {
    var c := AcceptCompleted(s, AcceptStopped, error);
    var stats := if error.Failed() then c.stats else c.stats.SessionStopped(OperationAborted);
    var v, p := s.views[w], PlaceOf(s.lists, s.ops, w);
    Open(s, w);
    AcceptCompletes(s, w, AcceptStopped, error);
    CountAt(c, w, v, p.(accepting := false), stats);
    LateRecycles(cfg, s, c.Count(stats), w, v, p.(accepting := false));
    BooksAndSums(cfg, s, Recycle(cfg, c.Count(stats), w));
  }

  lemma AcceptFailed(cfg: Config, s: State, w: W, error: Error)
    requires Core(cfg, s) && s.ops.accepting == Some(w) && s.intern.IntWork? && error.Failed()
    ensures Passed(cfg, s, Recycle(cfg, AcceptGivenUp(AcceptCompleted(s, AcceptReady, error), error), w))
  {
    var q := AcceptGivenUp(AcceptCompleted(s, AcceptReady, error), error);
    var v, p := s.views[w], PlaceOf(s.lists, s.ops, w);
    Open(s, w);
    AcceptCompletes(s, w, AcceptReady, error);
    assert At(q, w, v, p.(accepting := false));
    LateRecycles(cfg, s, q, w, v, p.(accepting := false));
    BooksAndSums(cfg, s, Recycle(cfg, q, w));
  }

  lemma Accepted(cfg: Config, s: State, w: W)
    requires Core(cfg, s) && s.ops.accepting == Some(w) && s.intern.IntWork?
    ensures Passed(cfg, s, StartSessionStart(AddToActive(AcceptCompleted(s, AcceptReady, Success), w), w))
  {
    var c := AcceptCompleted(s, AcceptReady, Success);
    var v, p := s.views[w], PlaceOf(s.lists, s.ops, w).(accepting := false);
    Open(s, w);
    AcceptCompletes(s, w, AcceptReady, Success);
    AddAt(c, w, v, p);
    var a := AddToActive(c, w);
    AskStartAt(a, w, v, p.(active := true));
    var r := StartSessionStart(a, w);
    assert Asked(v, AskStart).asked == [AskStart];
    Close(r, w, Asked(v, AskStart), p.(active := true, starting := true));
    BooksAndSums(cfg, s, r);
  }

  lemma AcceptAtWork(cfg: Config, s: State, w: W, error: Error)
    requires Core(cfg, s) && s.ops.accepting == Some(w) && s.intern.IntWork?
    ensures Passed(cfg, s, AcceptedAtWork(cfg, s, w, error))
  {
    if error.Failed() {
      AcceptFailed(cfg, s, w, error);
    } else {
      Accepted(cfg, s, w);
    }
  }

  /** An accepted session always finds room: the check against the limit is
      never what turns it away. */
  lemma AcceptFindsRoom(cfg: Config, s: State)
    requires Core(cfg, s) && s.ops.accepting.Some?
    ensures |s.lists.active| < cfg.maxSessions
    ensures !s.intern.IntStopped? && s.accept.AcceptInProgress? && !s.extern.ExtReady?
  {
  }

  // ----- every completion

  /** The only assertion that a completion can fail is about a session's answer
      to its stop. */
  predicate FailsAssertion(event: Event) { event.SessionStopped? && event.error.Failed() }

  lemma CompletionPasses(cfg: Config, s: State, event: Event, env: Env, alloc: Option<W>)
    requires Core(cfg, s) && Enabled(s, event, env, alloc) && IsCompletion(event)
    ensures !s.intern.IntStopped? && Passed(cfg, s.Check(!FailsAssertion(event)), Complete(cfg, s, event))
  {
    assert s.Check(true) == s;
    match event
    case AcceptDone(w, error) =>
      AcceptFindsRoom(cfg, s);
      if s.intern.IntWork? {
        AcceptAtWork(cfg, s, w, error);
      } else {
        AcceptAtStop(cfg, s, w, error);
      }
    case SessionStarted(w, error) => StartDonePasses(cfg, s, w, error);
    case SessionWaited(w, error) => WaitDonePasses(cfg, s, w, error);
    case SessionStopped(w, error) => StopDonePasses(cfg, s, w, error);
  }

  lemma CompletionKeeps(cfg: Config, s: State, event: Event, env: Env, alloc: Option<W>)
    requires Core(cfg, s) && Enabled(s, event, env, alloc) && IsCompletion(event)
    ensures Settles(cfg, s.Check(!FailsAssertion(event)), HandleCompletion(cfg, s, event, env, alloc))
  {
    CompletionPasses(cfg, s, event, env, alloc);
    PassedContinues(cfg, s.Check(!FailsAssertion(event)), Complete(cfg, s, event), env, alloc);
  }
}

/** The manager's bookkeeping: every wrapper, session and outstanding operation
    is accounted for at every point inside a step. */
module ManagerBooks {
  import opened Errors
  import opened SessionWrappers
  import opened ManagerSpec
  import opened ManagerLists

  function Bit(b: bool): int { if b then 1 else 0 }

  /** Where a wrapper stands: in the list of active sessions, held by the
      acceptor, recycled, or waiting for a completion. */
  datatype Place = Place(active: bool, accepting: bool, recycled: bool,
                         starting: bool, waiting: bool, stopping: bool)
  {
    predicate Busy() { active || accepting || starting || waiting || stopping }
  }

  ghost function PlaceOf(lists: Lists, ops: Ops, w: W): Place {
    Place(w in lists.active, ops.accepting == Some(w), w in lists.recycled,
          w in ops.starting, w in ops.waiting, w in ops.stopping)
  }

  /** A wrapper's own count of operations is right; a start and a wait are never
      outstanding together; a wrapper is in one place only; and what its session
      was asked follows the order start, wait, stop, each at most once. */
  predicate Sound(v: View, p: Place) {
    && v.pending == Bit(p.starting) + Bit(p.waiting) + Bit(p.stopping)
    && (v.session.Some? <==> p.Busy())
    && !(p.starting && p.waiting)
    && (p.active ==> !p.accepting && !p.recycled)
    && (p.accepting || p.recycled ==> !p.starting && !p.waiting && !p.stopping)
    && !(p.accepting && p.recycled)
    && (p.accepting ==> v.state == Ready && v.asked == [])
    && (p.stopping ==> p.active)
    && (p.active ==> match v.state
          case Start => p.starting && !p.stopping && v.asked == [AskStart]
          case Work => p.waiting && !p.stopping && v.asked == [AskStart, AskWait]
          case Stop => p.stopping && (if p.waiting then v.asked == [AskStart, AskWait, AskStop]
                                      else if p.starting then v.asked == [AskStart, AskStop]
                                      else v.asked == [AskStart, AskStop] || v.asked == [AskStart, AskWait, AskStop])
          case Ready => false
          case Stopped => false)
    && (!p.active && (p.starting || p.waiting) ==>
          v.state == WrapperState.Stopped
          && v.asked == if p.starting then [AskStart, AskStop] else [AskStart, AskWait, AskStop])
  }

  function HeldBy(views: map<W, View>): set<nat> {
    set w | w in views && views[w].session.Some? :: views[w].session.value
  }

  ghost predicate OneOwner(views: map<W, View>) {
    forall v, w | v in views && w in views && v != w && views[v].session.Some? ::
      views[v].session != views[w].session
  }

  predicate Known(views: map<W, View>, lists: Lists, ops: Ops) {
    && (forall w | w in lists.active :: w in views)
    && (forall w | w in lists.recycled :: w in views)
    && (ops.accepting.Some? ==> ops.accepting.value in views)
    && ops.starting <= views.Keys && ops.waiting <= views.Keys && ops.stopping <= views.Keys
  }

  /** How many operations the manager waits for. */
  function Outstanding(o: Ops): nat {
    Bit(o.accepting.Some?) + Bit(o.scheduled) + |o.starting| + |o.waiting| + |o.stopping|
  }

  /** Every session taken from the factory was released once or is still held. */
  predicate Ledger(p: Past) { p.taken == p.released + multiset(p.held) }

  /** The books, but for the soundness of `w`. */
  ghost predicate BookBut(s: State, w: Option<W>) {
    && Known(s.views, s.lists, s.ops) && NoDup(s.lists.active) && NoDup(s.lists.recycled)
    && (forall x | x in s.views && w != Some(x) :: Sound(s.views[x], PlaceOf(s.lists, s.ops, x)))
    && s.past.held == HeldBy(s.views) && OneOwner(s.views) && Ledger(s.past)
    && s.pending == Outstanding(s.ops)
    && (s.accept.AcceptInProgress? <==> s.ops.accepting.Some?)
  }

  ghost predicate Book(s: State) { BookBut(s, None) }

  /** The place of `w` and everything known of it, while the others are sound. */
  ghost predicate At(s: State, w: W, v: View, p: Place) {
    BookBut(s, Some(w)) && w in s.views && s.views[w] == v && PlaceOf(s.lists, s.ops, w) == p
  }

  lemma Open(s: State, w: W)
    requires Book(s) && w in s.views
    ensures At(s, w, s.views[w], PlaceOf(s.lists, s.ops, w)) && Sound(s.views[w], PlaceOf(s.lists, s.ops, w))
  {
  }

  lemma Close(s: State, w: W, v: View, p: Place)
    requires At(s, w, v, p) && Sound(v, p)
    ensures Book(s)
  {
  }

  // ----- one operation of one wrapper completes

  lemma SetKeepsOwners(views: map<W, View>, w: W, v: View)
    requires OneOwner(views) && w in views && v.session == views[w].session
    ensures OneOwner(views[w := v]) && HeldBy(views[w := v]) == HeldBy(views)
  {
    var r := views[w := v];
    assert forall x | x in views :: r[x].session == views[x].session;
    forall i | i in HeldBy(views) ensures i in HeldBy(r) {
      var x: W :| x in views && views[x].session == Some(i);
      assert x in r && r[x].session == Some(i);
    }
    forall i | i in HeldBy(r) ensures i in HeldBy(views) {
      var x: W :| x in r && r[x].session == Some(i);
      assert x in views && views[x].session == Some(i);
    }
  }

  lemma StartCompletes(s: State, w: W)
    requires Book(s) && w in s.ops.starting
    ensures var v, p := s.views[w], PlaceOf(s.lists, s.ops, w);
            At(StartCompleted(s, w), w,
               v.(pending := v.pending - 1), p.(starting := false))
  {
    SetKeepsOwners(s.views, w, s.views[w].(pending := s.views[w].pending - 1));
  }

  lemma WaitCompletes(s: State, w: W)
    requires Book(s) && w in s.ops.waiting
    ensures var v, p := s.views[w], PlaceOf(s.lists, s.ops, w);
            At(WaitCompleted(s, w), w,
               v.(pending := v.pending - 1), p.(waiting := false))
  {
    SetKeepsOwners(s.views, w, s.views[w].(pending := s.views[w].pending - 1));
  }

  lemma StopCompletes(s: State, w: W)
    requires Book(s) && w in s.ops.stopping
    ensures var v, p := s.views[w], PlaceOf(s.lists, s.ops, w);
            At(StopCompleted(s, w), w,
               v.(pending := v.pending - 1), p.(stopping := false))
  {
    SetKeepsOwners(s.views, w, s.views[w].(pending := s.views[w].pending - 1));
  }

  lemma AcceptCompletes(s: State, w: W, accept: AcceptState, error: Error)
    requires Book(s) && s.ops.accepting == Some(w) && !accept.AcceptInProgress?
    ensures At(AcceptCompleted(s, accept, error), w, s.views[w], PlaceOf(s.lists, s.ops, w).(accepting := false))
  {
  }

  // ----- further steps with the same wrapper

  lemma MarkAt(s: State, w: W, v: View, p: Place, state: WrapperState)
    requires At(s, w, v, p)
    ensures At(Mark(s, w, state), w, v.(state := state), p)
  {
    SetKeepsOwners(s.views, w, v.(state := state));
  }

  lemma AskStartAt(s: State, w: W, v: View, p: Place)
    requires At(s, w, v, p) && !p.starting
    ensures At(StartSessionStart(s, w), w, Asked(v, AskStart), p.(starting := true))
  {
    SetKeepsOwners(s.views, w, Asked(v, AskStart));
  }

  lemma AskWaitAt(s: State, w: W, v: View, p: Place)
    requires At(s, w, v, p) && !p.waiting
    ensures At(StartSessionWait(s, w), w, Asked(v, AskWait), p.(waiting := true))
  {
    SetKeepsOwners(s.views, w, Asked(v, AskWait));
  }

  lemma AskStopAt(s: State, w: W, v: View, p: Place)
    requires At(s, w, v, p) && !p.stopping
    ensures At(StartSessionStop(s, w), w, Asked(v, AskStop), p.(stopping := true))
  {
    SetKeepsOwners(s.views, w, Asked(v, AskStop));
  }

  lemma AskStopCloses(s: State, w: W, v: View, p: Place)
    requires At(s, w, v, p) && !p.stopping && Sound(Asked(v, AskStop), p.(stopping := true))
    ensures Book(StartSessionStop(s, w))
  {
    AskStopAt(s, w, v, p);
    Close(StartSessionStop(s, w), w, Asked(v, AskStop), p.(stopping := true));
  }

  lemma AddAt(s: State, w: W, v: View, p: Place)
    requires At(s, w, v, p) && !p.active
    ensures At(AddToActive(s, w), w, v, p.(active := true))
  {
  }

  lemma RemoveAt(s: State, w: W, v: View, p: Place)
    requires At(s, w, v, p)
    ensures At(RemoveFromActive(s, w), w, v, p.(active := false))
  {
    EraseMembers(s.lists.active, w);
  }

  /** A wrapper off the active list is recycled, unless a completion of its
      session is still to come. */
  lemma RecycleCloses(cfg: Config, s: State, w: W, v: View, p: Place)
    requires At(s, w, v, p) && v.session.Some?
    requires !p.active && !p.accepting && !p.recycled && !p.stopping
    requires v.pending == Bit(p.starting) + Bit(p.waiting)
    requires p.starting || p.waiting ==> Sound(v, p)
    ensures Book(Recycle(cfg, s, w))
    ensures Recycle(cfg, s, w).past.broken == s.past.broken
  {
    if v.pending == 0 {
      var views := s.views[w := v.(session := None)];
      ReleaseKeepsOwners(s.views, w);
      ReleaseLedger(s.past, v.session.value);
    }
  }

  lemma ReleaseKeepsOwners(views: map<W, View>, w: W)
    requires OneOwner(views) && w in views && views[w].session.Some?
    ensures var r := views[w := views[w].(session := None)];
            OneOwner(r) && HeldBy(r) == HeldBy(views) - {views[w].session.value}
  {
    var r := views[w := views[w].(session := None)];
    forall i | i in HeldBy(views) && i != views[w].session.value ensures i in HeldBy(r) {
      var x: W :| x in views && views[x].session == Some(i);
      assert x in r && r[x].session == Some(i);
    }
    forall i | i in HeldBy(r) ensures i in HeldBy(views) && i != views[w].session.value {
      var x: W :| x in r && r[x].session == Some(i);
      assert x in views && views[x].session == Some(i);
    }
  }

  lemma TakeKeepsOwners(views: map<W, View>, w: W, i: nat)
    requires OneOwner(views) && (w in views ==> views[w].session.None?) && i !in HeldBy(views)
    ensures var r := views[w := Attached(i)];
            OneOwner(r) && HeldBy(r) == HeldBy(views) + {i}
  {
    var r := views[w := Attached(i)];
    forall j | j in HeldBy(views) ensures j in HeldBy(r) {
      var x: W :| x in views && views[x].session == Some(j);
      assert x in r && r[x].session == Some(j);
    }
    assert w in r && r[w].session == Some(i);
    forall j | j in HeldBy(r) && j != i ensures j in HeldBy(views) {
      var x: W :| x in r && r[x].session == Some(j);
      assert x in views && views[x].session == Some(j);
    }
    forall x, y | x in r && y in r && x != y && r[x].session.Some? ensures r[x].session != r[y].session {
      if x == w {
        assert y in views ==> views[y].session != Some(i);
      } else if y == w {
        assert views[x].session.value in HeldBy(views);
      }
    }
  }

  // ----- a session taken from the factory for the next accept

  lemma TakeLedger(p: Past, i: nat)
    requires Ledger(p) && i !in p.held
    ensures Ledger(p.Take(i)) && p.Take(i).Release(i).held == p.held && Ledger(p.Take(i).Release(i))
  {
    assert multiset(p.held + {i}) == multiset(p.held) + multiset{i};
    assert p.held + {i} - {i} == p.held;
  }

  lemma ReleaseLedger(p: Past, i: nat)
    requires Ledger(p) && i in p.held
    ensures Ledger(p.Release(i))
  {
    assert multiset(p.held - {i}) + multiset{i} == multiset(p.held);
  }

  lemma TakeRecycledAt(s: State, i: nat, stats: Stats)
    requires Book(s) && s.lists.recycled != [] && i !in s.past.held
    ensures var w := s.lists.recycled[0];
            var r := Set(s, w, Attached(i)).(lists := s.lists.(recycled := s.lists.recycled[1..]),
                                             past := s.past.Take(i), stats := stats);
            At(r, w, Attached(i), Place(false, false, false, false, false, false))
  {
    var w := s.lists.recycled[0];
    Open(s, w);
    TakeKeepsOwners(s.views, w, i);
    TakeLedger(s.past, i);
  }

  lemma TakeNewAt(s: State, w: W, i: nat)
    requires Book(s) && w !in s.views && i !in s.past.held
    ensures At(Set(s, w, Attached(i)).(past := s.past.Take(i)), w,
               Attached(i), Place(false, false, false, false, false, false))
  {
    TakeKeepsOwners(s.views, w, i);
    TakeLedger(s.past, i);
  }

  lemma AcceptStarts(s: State, w: W, i: nat)
    requires At(s, w, Attached(i), Place(false, false, false, false, false, false)) && s.accept.AcceptReady?
    ensures Book(StartAcceptSession(s, w))
  {
    var r := StartAcceptSession(s, w);
    assert At(r, w, Attached(i), Place(false, true, false, false, false, false));
    Close(r, w, Attached(i), Place(false, true, false, false, false, false));
  }

  /** Counting changes no books. */
  lemma CountAt(s: State, w: W, v: View, p: Place, stats: Stats)
    requires At(s, w, v, p)
    ensures At(s.Count(stats), w, v, p)
  {
  }
}

/** Every step of the session manager keeps its invariant. */
module ManagerSteps {
  import opened Errors
  import opened ExternRequests
  import opened ManagerSpec
  import opened ManagerProofs
  import opened ManagerCompletions

  lemma SettledInv(cfg: Config, s: State, r: State)
    requires Inv(cfg, s) && Settles(cfg, s, r)
    ensures Inv(cfg, r)
  {
  }

  lemma DoStartKeeps(cfg: Config, s: State, id: nat, env: Env, alloc: Option<W>)
    requires Inv(cfg, s) && Supply(s, env, alloc)
    ensures var r := DoStart(cfg, s, id, env, alloc); Inv(cfg, r) && r.past.broken == s.past.broken
  {
    if s.extern.ExtReady? {
      var c := s.(extern := ExtWork);
      ContinueWorkKeeps(cfg, c, env, alloc);
      StartAnswers(cfg, c, ContinueWork(cfg, c, env, alloc), id);
    }
  }

  lemma StartAnswers(cfg: Config, c: State, r: State, id: nat)
    requires Settles(cfg, c, r) && c.extern.ExtWork?
    ensures Inv(cfg, if r.intern.IntStopped? then r.(extern := ExtStopped, mail := PostMail(r.mail, id, r.mail.waitError))
                     else r.(mail := PostMail(r.mail, id, Success)))
  {
  }

  lemma DoStopKeeps(cfg: Config, s: State, id: nat)
    requires Inv(cfg, s)
    ensures var r := DoStop(cfg, s, id); Inv(cfg, r) && r.past.broken == s.past.broken
  {
    if s.extern.ExtReady? || s.extern.ExtWork? {
      var r := s.(extern := ExtStop, mail := CompleteExternWait(s.mail, OperationAborted));
      if r.intern.IntWork? {
        StartStopKeeps(cfg, r, OperationAborted);
        StopAnswers(cfg, StartStop(cfg, r, OperationAborted), id);
      } else {
        StopJoins(cfg, s, id);
      }
    }
  }

  /** A stop request that finds the manager stopping or stopped already. */
  lemma StopJoins(cfg: Config, s: State, id: nat)
    requires Inv(cfg, s) && s.extern.ExtWork? && !s.intern.IntWork?
    ensures Inv(cfg, DoStop(cfg, s, id))
  {
  }

  lemma StopAnswers(cfg: Config, q: State, id: nat)
    requires Core(cfg, q) && !q.intern.IntWork? && (q.intern.IntStop? ==> q.extern.ExtStop?)
    ensures Inv(cfg, AnswerStop(q, id))
  {
  }

  lemma DoWaitKeeps(cfg: Config, s: State, id: nat)
    requires Inv(cfg, s)
    ensures var r := DoWait(s, id); Inv(cfg, r) && r.past.broken == s.past.broken
  {
  }

  lemma DoResetKeeps(cfg: Config, s: State, freeRecycled: bool)
    requires Inv(cfg, s) && s.pending == 0
    ensures var r := DoReset(s, freeRecycled); Inv(cfg, r) && r.past.broken == s.past.broken
  {
    NothingOutstanding(s);
  }

  lemma IssueKeeps(cfg: Config, s: State, id: nat)
    requires Inv(cfg, s)
    ensures Inv(cfg, s.(mail := IssueMail(s.mail, id)))
  {
  }

  /** The wrapper a completion is for is one of the manager's. */
  lemma SubjectKnown(cfg: Config, s: State, event: Event, env: Env, alloc: Option<W>)
    requires Inv(cfg, s) && Enabled(s, event, env, alloc) && IsCompletion(event)
    ensures event.w in s.views
  {
  }

  lemma CompletionInv(cfg: Config, s: State, event: Event, env: Env, alloc: Option<W>)
    requires Inv(cfg, s) && Enabled(s, event, env, alloc) && IsCompletion(event)
    ensures var r := HandleCompletion(cfg, s, event, env, alloc);
            Inv(cfg, r) && r.past.broken == (s.past.broken || FailsAssertion(event))
  {
    var b := s.Check(!FailsAssertion(event));
    CompletionKeeps(cfg, s, event, env, alloc);
    SettledInv(cfg, b, HandleCompletion(cfg, s, event, env, alloc));
  }

  /** Every step keeps the invariant, and the only assertion of the manager that
      can ever fail is the one about a session's answer to its stop. */
  lemma StepKeeps(cfg: Config, s: State, event: Event, env: Env, alloc: Option<W>)
    requires Inv(cfg, s) && Enabled(s, event, env, alloc)
    ensures var r := Step(cfg, s, event, env, alloc);
            Inv(cfg, r) && r.past.broken == (s.past.broken || FailsAssertion(event))
  {
    match event
    case Start(id) =>
      IssueKeeps(cfg, s, id);
      DoStartKeeps(cfg, s.(mail := IssueMail(s.mail, id)), id, env, alloc);
    case Stop(id) =>
      IssueKeeps(cfg, s, id);
      DoStopKeeps(cfg, s.(mail := IssueMail(s.mail, id)), id);
    case Wait(id) =>
      IssueKeeps(cfg, s, id);
      DoWaitKeeps(cfg, s.(mail := IssueMail(s.mail, id)), id);
    case StopScheduled =>
      StopScheduledKeeps(cfg, s);
      SettledInv(cfg, s, HandleStopScheduled(cfg, s));
    case Reset(freeRecycled) =>
      DoResetKeeps(cfg, s, freeRecycled);
    case _ =>
      CompletionInv(cfg, s, event, env, alloc);
  }
}

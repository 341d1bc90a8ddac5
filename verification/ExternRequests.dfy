/** External start, stop and wait requests, as sessions and the session manager
    serve them: a request is answered by posting its handler, or its handler is
    parked and posted later. */
module ExternRequests {
  import opened Errors

  datatype Extern = ExtReady | ExtWork | ExtStop | ExtStopped

  /** A posted external handler: the request it answers and its argument. */
  datatype Completion = Completion(id: nat, error: Error)

  /** The parked external handlers, the recorded end of work, every request made
      and every handler posted, in order. */
  datatype Mail = Mail(waitError: Error, waitHandler: Option<nat>, stopHandler: Option<nat>,
                       issued: set<nat>, posted: seq<Completion>)

  const NoMail := Mail(Success, None, None, {}, [])

  function PostMail(m: Mail, id: nat, error: Error): Mail {
    m.(posted := m.posted + [Completion(id, error)])
  }

  function IssueMail(m: Mail, id: nat): Mail {
    m.(issued := m.issued + {id})
  }

  function CompleteExternStop(m: Mail, error: Error): Mail {
    if m.stopHandler.Some? then PostMail(m.(stopHandler := None), m.stopHandler.value, error) else m
  }

  function CompleteExternWait(m: Mail, error: Error): Mail {
    var r := if m.waitError.Failed() then m else m.(waitError := error);
    if r.waitHandler.Some? then PostMail(r.(waitHandler := None), r.waitHandler.value, r.waitError) else r
  }

  /** Between two points of a step parked handlers are only answered, the wait
      handler first and with the recorded cause, each with its own identity;
      what was posted stays posted, and the first recorded cause stays recorded. */
  predicate Forward(m: Mail, n: Mail) {
    var w := if m.waitHandler.Some? && n.waitHandler.None? then 1 else 0;
    var t := if m.stopHandler.Some? && n.stopHandler.None? then 1 else 0;
    && n.issued == m.issued
    && (n.waitHandler == m.waitHandler || n.waitHandler.None?)
    && (n.stopHandler == m.stopHandler || n.stopHandler.None?)
    && |n.posted| == |m.posted| + w + t && m.posted <= n.posted
    && (w == 1 ==> n.posted[|m.posted|] == Completion(m.waitHandler.value, n.waitError))
    && (t == 1 ==> n.posted[|m.posted| + w] == Completion(m.stopHandler.value, Success))
    && (m.waitError.Failed() ==> n.waitError == m.waitError)
  }

  lemma CompleteWaitForward(m: Mail, error: Error)
    ensures Forward(m, CompleteExternWait(m, error))
  {
  }

  /** The answered requests, each as often as it was answered. */
  function Answered(posted: seq<Completion>): multiset<nat> {
    if posted == [] then multiset{}
    else Answered(posted[..|posted| - 1]) + multiset{posted[|posted| - 1].id}
  }

  function ParkedId(handler: Option<nat>): multiset<nat> {
    if handler.Some? then multiset{handler.value} else multiset{}
  }

  function Kept(m: Mail): multiset<nat> {
    Answered(m.posted) + ParkedId(m.waitHandler) + ParkedId(m.stopHandler)
  }

  /** Every request made is answered once or parked once, never both. */
  ghost predicate Settled(m: Mail) { Kept(m) == multiset(m.issued) }

  /** The same, but for the request being served. */
  ghost predicate OneShort(m: Mail, id: nat) { Kept(m) + multiset{id} == multiset(m.issued) }

  lemma AnsweredAdds(posted: seq<Completion>, c: Completion)
    ensures Answered(posted + [c]) == Answered(posted) + multiset{c.id}
  {
    assert (posted + [c])[..|posted|] == posted;
  }

  /** The answers a posting sequence gained. */
  lemma {:induction false} AnsweredExtends(p: seq<Completion>, q: seq<Completion>)
    requires p <= q
    ensures Answered(q) == Answered(p) + Answered(q[|p|..])
    decreases |q|
  {
    if |q| == |p| {
      assert q == p && q[|p|..] == [];
    } else {
      var r := q[..|q| - 1];
      assert q[|p|..][..|q[|p|..]| - 1] == r[|p|..];
      AnsweredExtends(p, r);
    }
  }

  lemma AnsweredShort(q: seq<Completion>)
    ensures |q| == 0 ==> Answered(q) == multiset{}
    ensures |q| == 1 ==> Answered(q) == multiset{q[0].id}
    ensures |q| == 2 ==> Answered(q) == multiset{q[0].id, q[1].id}
  {
    if |q| == 2 {
      assert q[..1] == [q[0]];
      AnsweredAdds([], q[0]);
      assert [] + [q[0]] == [q[0]];
    }
  }

  lemma ForwardAnswers(m: Mail, n: Mail)
    requires Forward(m, n)
    ensures Kept(n) == Kept(m)
  {
    AnsweredExtends(m.posted, n.posted);
    AnsweredShort(n.posted[|m.posted|..]);
  }

  lemma ForwardKeeps(m: Mail, n: Mail)
    requires Forward(m, n)
    ensures Settled(m) ==> Settled(n)
    ensures forall id :: OneShort(m, id) ==> OneShort(n, id)
  {
    ForwardAnswers(m, n);
  }

  lemma IssueShorts(m: Mail, id: nat)
    requires Settled(m) && id !in m.issued
    ensures OneShort(m.(issued := m.issued + {id}), id)
  {
  }

  lemma PostSettles(m: Mail, id: nat, error: Error)
    requires OneShort(m, id)
    ensures Settled(PostMail(m, id, error))
  {
    AnsweredAdds(m.posted, Completion(id, error));
  }
}

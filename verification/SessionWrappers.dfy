/** The manager's wrapper of a session: one object per slot, attached to one
    session after another. */
module SessionWrappers {
  import opened Errors

  datatype WrapperState = Ready | Start | Work | Stop | Stopped

  /** What the manager asks of a session, in the order it is posted to the
      session's strand. */
  datatype Request = AskStart | AskWait | AskStop

  /** A wrapper as a value: the attached session, the wrapper's state, how many
      of its operations are outstanding, and what the session was asked so far. */
  datatype View = View(session: Option<nat>, state: WrapperState, pending: int, asked: seq<Request>)

  class SessionWrapper {
    var session: Option<nat>
    var state: WrapperState
    var pendingOperations: int
    var asked: seq<Request>

    function Get(): View
      reads this
    {
      View(session, state, pendingOperations, asked)
    }

    constructor (s: nat)
      ensures Get() == Attached(s)
    {
      session, state, pendingOperations, asked := Some(s), Ready, 0, [];
    }

    method Attach(s: nat)
      modifies this
      ensures Get() == Attached(s)
    {
      session, state, pendingOperations, asked := Some(s), Ready, 0, [];
    }

    method Detach() returns (s: Option<nat>)
      modifies this
      ensures s == old(session) && Get() == old(Get()).(session := None)
    {
      s := session;
      session := None;
    }

    method OperationCompleted()
      modifies this
      ensures Get() == old(Get()).(pending := old(Get()).pending - 1)
    {
      pendingOperations := pendingOperations - 1;
    }

    method MarkStopped()
      modifies this
      ensures Get() == old(Get()).(state := Stopped)
    {
      state := Stopped;
    }

    method MarkWorking()
      modifies this
      ensures Get() == old(Get()).(state := Work)
    {
      state := Work;
    }

    method AsyncStart()
      modifies this
      ensures Get() == Asked(old(Get()), AskStart)
    {
      asked := asked + [AskStart];
      state := Start;
      pendingOperations := pendingOperations + 1;
    }

    method AsyncStop()
      modifies this
      ensures Get() == Asked(old(Get()), AskStop)
    {
      asked := asked + [AskStop];
      state := Stop;
      pendingOperations := pendingOperations + 1;
    }

    method AsyncWait()
      modifies this
      ensures Get() == Asked(old(Get()), AskWait)
    {
      asked := asked + [AskWait];
      pendingOperations := pendingOperations + 1;
    }
  }

  function Attached(s: nat): View { View(Some(s), Ready, 0, []) }

  /** Asking the session for something starts one more operation. */
  function Asked(v: View, request: Request): View {
    View(v.session,
         match request { case AskStart => Start case AskStop => Stop case AskWait => v.state },
         v.pending + 1, v.asked + [request])
  }

  /** The requests of one session: to start once, then to wait for its end at
      most once and to stop at most once, in this order. */
  predicate InOrder(asked: seq<Request>) {
    asked == [] || asked == [AskStart] || asked == [AskStart, AskWait]
    || asked == [AskStart, AskStop] || asked == [AskStart, AskWait, AskStop]
  }
}

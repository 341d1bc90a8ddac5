/** Error codes and the optional values shared by every component. */
module Errors {

  datatype Option<+T> = None | Some(value: T)

  /** The error codes the components compare with.  `Success` is the default
      constructed code.  `OperationAborted` and the two next to it belong to the
      server's own category; `TimerAborted` is Asio's operation_aborted. */
  datatype Error =
    | Success
    | InvalidState
    | OperationAborted
    | InactivityTimeout
    | Eof
    | TimerAborted
    | NoDescriptors
    | NotEnoughMemory
    | Other(code: nat)
  {
    predicate Failed() { this != Success }

    /** Codes that sockets, timers and allocators may report. */
    predicate IsSystem() {
      !InvalidState? && !OperationAborted? && !InactivityTimeout?
    }
  }
}

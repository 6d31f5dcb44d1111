/** Option and Result, and the error values the Go code returns. */
module Wrappers {

  datatype Option<+T> = None | Some(value: T)

  datatype Result<+T, +E> = Success(value: T) | Failure(error: E)

  /** The errors of the system. A Go error built with
      `fmt.Errorf("<context>: %w", cause)` is `Wrapped(context, cause)`. */
  datatype Error =
    | UnexpectedMetadata          // entities.ErrUnexpectedMetadata
    | OtherLockWasNotRealised     // joplin_provider.ErrOtherLockWasNotRealised
    | NotFound(key: string)       // the backend has no object or note under this key
    | Transport(request: nat)     // the backend request with this sequence number failed in transit
    | Wrapped(context: string, cause: Error)

  /** None of the backend requests numbered lo to hi - 1 fails in transit. */
  predicate NoFaults(fails: nat -> bool, lo: nat, hi: nat) {
    forall q :: lo <= q < hi ==> !fails(q)
  }

  lemma NoFaultsSnoc(fails: nat -> bool, lo: nat, hi: nat)
    requires NoFaults(fails, lo, hi) && !fails(hi)
    ensures NoFaults(fails, lo, hi + 1)
  {
  }
}

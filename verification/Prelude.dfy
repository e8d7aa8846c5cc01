/** What every module shares: result types, and the smaller of two integers. */
module Prelude {

  datatype Option<+T> = None | Some(value: T)

  /** How an awaited call of the daemon ends: with a value, with an exception that
      `except Exception` catches, or cancelled.  A cancelled call stands for
      `CancelledError` as well as for the death of the process at that await. */
  datatype Outcome<+T> = Ok(value: T) | Raised | Cancelled {
    predicate IsFailure() {
      !Ok?
    }

    function PropagateFailure<U>(): Outcome<U>
      requires IsFailure()
    {
      if Raised? then Raised else Cancelled
    }

    function Extract(): T
      requires Ok?
    {
      value
    }
  }

  function Min(a: int, b: int): int {
    if a < b then a else b
  }
}

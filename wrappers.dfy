/** Option and crash-carrying outcome types shared by every module of the model. */
module Wrappers {

  datatype Option<+T> = None | Some(value: T) {
    function GetOr(default: T): T {
      match this
      case Some(v) => v
      case None => default
    }
  }

  /** The result of a Python computation that either returns normally or raises
      (an IndexError on an empty search result, a TypeError on a missing value, ...). */
  datatype Outcome<+T> = Ok(value: T) | Crash(reason: string) {
    predicate IsFailure() {
      Crash?
    }
    function PropagateFailure<U>(): Outcome<U>
      requires Crash?
    {
      Crash(reason)
    }
    function Extract(): T
      requires Ok?
    {
      value
    }
  }
}

// Failure values shared by every module of the model, and the witness of a
// non-empty set that choosing one of its elements needs.
//
// Python exceptions raised by the expression compiler (a failed `assert`, an
// index out of range, a `ValueError`, a `KeyError`) and Rust panics of the
// decision-diagram code are all modelled as an `Err` carrying the kind of
// failure, so that no operation needs a precondition that excludes them.
module Wrappers {

  datatype Option<T> = None | Some(value: T)

  /** The kinds of failure the modelled code can end with. */
  datatype Error =
    | AssertionError
    | IndexError
    | ValueError(msg: string)
    | KeyError(key: string)
    | Panic(msg: string)

  datatype Result<T> = Ok(value: T) | Err(error: Error)

  /** An element of a non-empty set. */
  lemma {:induction false} Member<T>(s: set<T>) returns (x: T)
    requires s != {}
    ensures x in s
  {
    if forall y :: y !in s {
      assert false;
    }
    x :| x in s;
  }
}

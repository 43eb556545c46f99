/**
 The few Python-level notions the exporter's code relies on: an optional value,
 the exceptions its code paths can raise, and a result that carries either a
 value or the exception that ended the computation.
 */
module Base {

  datatype Option<+T> = None | Some(value: T)

  /** The exceptions the modelled code can raise and does not catch. */
  datatype Error =
    | KeyError(key: string)      // `d[key]` on a dict without that key
    | TypeError                  // `v[key]` with a string key on a value that is not a dict
    | IndexError(at: nat)        // indexing past the end of the item at this position of the input

  datatype Result<+T> = Success(value: T) | Failure(error: Error) {
    predicate IsFailure() {
      Failure?
    }

    function PropagateFailure<U>(): Result<U>
      requires Failure?
    {
      Failure(error)
    }

    function Extract(): T
      requires Success?
    {
      value
    }
  }
}

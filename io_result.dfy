/** Outcomes of a load. The Java reader has two ways to fail, both raised as a
    RuntimeException around an IOException: the stream runs out of bytes in the
    middle of the class file, or the bytecode provider cannot supply the file.
    "Not found" is not a failure: it is the `None` inside a successful result. */
module IoResult {

  datatype Error =
    | EndOfData
    | ProviderFailure(externalPath: string, internalPath: string)

  datatype Option<+T> = None | Some(value: T)

  /** A value, or the error that aborted the load. Usable with `:-`. */
  datatype Result<+T> = Ok(value: T) | Fail(error: Error) {
    predicate IsFailure() {
      Fail?
    }

    function PropagateFailure<U>(): Result<U>
      requires Fail?
    {
      Fail(error)
    }

    function Extract(): T
      requires Ok?
    {
      value
    }
  }

  /** Outcome of a stream operation that yields nothing (a skip). */
  datatype Status = Done | Failed(error: Error) {
    predicate IsFailure() {
      Failed?
    }

    function PropagateFailure<U>(): Result<U>
      requires Failed?
    {
      Fail(error)
    }
  }
}

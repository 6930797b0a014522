/** Optional values, the two failures the analysis can raise, and a failure-compatible result. */
module Results {

  datatype Option<+T> = None | Some(value: T)

  /** ZeroDivision: a rate divided by a post age of zero minutes.
      MissingKey: a ranked tag that is not a key of the aggregate table (Python's KeyError). */
  datatype Error = ZeroDivision | MissingKey(key: string)

  datatype Result<+T> = Ok(value: T) | Err(error: Error) {

    predicate IsFailure() {
      Err?
    }

    function PropagateFailure<U>(): Result<U>
      requires Err?
    {
      Err(error)
    }

    function Extract(): T
      requires Ok?
    {
      value
    }
  }
}

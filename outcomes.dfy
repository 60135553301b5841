/** The Python exceptions the searches can raise, and a result type that
    carries either a value or one of them. */
module Outcomes {

  /** EmptyReduction: `np.max` of a zero-size array (a ValueError).
      IndexOutOfRange: an index past the end of a list or array (an IndexError).
      UndefinedName: `del` of a local name that was never bound (an UnboundLocalError). */
  datatype Error = EmptyReduction | IndexOutOfRange | UndefinedName

  datatype Result<T> = Success(value: T) | Failure(error: Error)
}

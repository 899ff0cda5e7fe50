/** Result and outcome types shared by the analysis session's operations.

    Every tool of the STEM server catches its own exceptions and turns them into a
    failure message; here the failure is a value of `Error`, and the three ways a tool
    can answer (nothing to work on, failed, done) are the constructors of `Outcome`.
 */
module Common {

  datatype Option<+T> = None | Some(value: T)

  /** Why an operation failed. */
  datatype Error =
    | RemoteError(message: string)                 // raised by the instrument behind the RPC boundary
    | ShapeMismatch(expected: nat, actual: nat)    // numpy reshape: element count differs from the shape's product
    | InhomogeneousRows                            // numpy array built from rows of different lengths
    | EngineError(message: string)                 // raised inside PCA or KMeans
    | IndexOutOfRange(index: nat)                  // a label looked up past the end of the cluster labels

  datatype Result<+T> = Success(value: T) | Failure(error: Error)

  /** The answer of one tool call: the explicit "no data" outcome, a failure, or a value. */
  datatype Outcome<+T> = NoData | Failed(error: Error) | Done(value: T)

  /** The number of values Python's `range(n)` yields: none when `n` is not positive. */
  function RangeSize(n: int): nat
  {
    if n > 0 then n else 0
  }
}

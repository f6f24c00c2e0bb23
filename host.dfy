/** Values shared by both contracts: the host's address type and the result
    shapes a contract function can produce. */
module Host {

  /** A Soroban address (an account or a contract), compared by value. */
  type Address = string

  datatype Option<+T> = None | Some(value: T)

  /** The `Result` a contract function returns when it runs to completion. */
  datatype Result<+T, +E> = Ok(value: T) | Err(error: E)

  /** What the caller of a contract function observes. `Trapped` is the host
      aborting the invocation (a failed `require_auth`, an `unwrap` of a
      missing value); every storage write of that invocation is discarded. */
  datatype Invocation<+T> = Returned(value: T) | Trapped
}

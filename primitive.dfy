/** Shared vocabulary of the domain package: identities, timestamps, and the
    two error outcomes the repositories distinguish. */
module Primitive {

  /** Row identity. The source uses an unsigned 64-bit integer filled in by
      the database's serial column; the model uses an unbounded natural. */
  type ID = nat

  /** An opaque clock reading (the source's `time.Now()` and SQL `now()`). */
  type Time = int

  datatype Option<T> = None | Some(value: T)

  /** `NotFound` is the domain's own sentinel error; every other database
      error is wrapped with context and is collapsed here into `StoreFailure`. */
  datatype Error = NotFound | StoreFailure

  /** The `(value, error)` pair of a repository call that returns a value. */
  datatype Result<T> = Ok(value: T) | Err(error: Error)

  /** The lone `error` of a repository call that returns no value. */
  datatype Outcome = Done | Fail(error: Error)
}

/** Failure-carrying values shared by the harness model: an optional value,
    and a computation that either succeeds with a value or fails with an error
    (the model's stand-in for a thrown Java exception). */
module Results {

  datatype Option<+T> = None | Some(value: T)

  datatype Result<+R, +E> = Success(value: R) | Failure(error: E)
}

/** Outcome types standing in for the exceptions and the "nothing printed"
  * cases of the C++ program. */
module Results {

  /** A value, or the error that the source signals by throwing. */
  datatype Result<T, E> = Success(value: T) | Failure(error: E)

  datatype Option<T> = None | Some(value: T)
}

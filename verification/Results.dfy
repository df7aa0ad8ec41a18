/** Outcome types shared by every component: Go's `(value, ok)` and `(value, error)` pairs. */
module Results {
  datatype Option<+T> = None | Some(value: T)

  datatype Result<+T> = Success(value: T) | Failure(message: string)
}

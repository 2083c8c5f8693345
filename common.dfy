/** Nullable values and fallible results, used for Java's null / Optional and for thrown exceptions. */
module Common {

  /** A Java reference that may be null, or a `java.util.Optional`. */
  datatype Option<T> = None | Some(value: T)

  /** The outcome of an operation that either returns a value or throws. */
  datatype Result<T, E> = Ok(value: T) | Err(error: E)
}

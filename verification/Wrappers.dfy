/** The value-or-error results and the byte strings shared by every module. */
module Wrappers {
  datatype Option<+T> = None | Some(value: T)

  /** A C++ `require` that throws becomes a `Failure`. */
  datatype Result<+T, +E> = Success(value: T) | Failure(error: E) {
    predicate IsFailure() {
      Failure?
    }

    function PropagateFailure<U>(): Result<U, E>
      requires Failure?
    {
      Failure(error)
    }

    function Extract(): T
      requires Success?
    {
      value
    }
  }
}

module Bytes {
  /** An unsigned char. */
  type byte = b: int | 0 <= b < 256

  type Word = seq<byte>
}

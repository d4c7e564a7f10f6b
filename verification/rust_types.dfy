/**
 * Rust's `Option` and `Result`, as the service's code uses them. `Option` also lets the JSON
 * decoder chain its field readers with `:-`, stopping at the first one that finds no match.
 */
module RustTypes {

  datatype Option<+T> = None | Some(value: T) {

    /** A reader that finds nothing ends the decoding. */
    predicate IsFailure() {
      None?
    }

    function PropagateFailure<U>(): Option<U>
      requires None?
    {
      None
    }

    function Extract(): T
      requires Some?
    {
      value
    }
  }

  /** A fallible outcome: a fetch's configuration or its error, a frame or a protocol error. */
  datatype Result<+R, +E> = Ok(value: R) | Err(error: E)
}

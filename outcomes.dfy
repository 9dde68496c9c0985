/** Option and Result values shared by every module of the model, and the byte type. */
module Outcomes {

  /** A value that may be absent (Go's nil pointer, JavaScript's null). */
  datatype Option<T> = None | Some(value: T) {
    function GetOr(default: T): T {
      if Some? then value else default
    }
  }

  /** The outcome of an operation that returns either a value or an error. */
  datatype Result<T, E> = Ok(value: T) | Err(error: E)

  newtype byte = x: int | 0 <= x < 256

  /** Raw file contents and HTTP bodies. */
  type Bytes = seq<byte>
}

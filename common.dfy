/** Definitions shared by the two buffer-pool variants of package `chunk`. */
module Common {

  /** A Go `byte`. */
  type byte = bv8

  /** The contents of a freshly made Go byte slice of length `n`: all zero. */
  function Zeros(n: nat): seq<byte> {
    seq(n, _ => 0)
  }

  datatype Option<+T> = None | Some(value: T)

  /** The result of an operation that either completes or panics with a message.
      A panic is a fatal programming-error fault, never an ordinary error value. */
  datatype Outcome<+T> = Ok(value: T) | Panic(message: string)
}

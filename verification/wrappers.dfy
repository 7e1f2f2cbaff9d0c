/** Failure-carrying values shared by every module of the model. */
module Wrappers {

  datatype Option<+T> = None | Some(value: T)

  /** A Go `(value, error)` pair where exactly one side is meaningful. */
  datatype Result<+T, +E> = Success(value: T) | Failure(error: E)

  /** What a Go encoder leaves behind: the bytes in its buffer and whether it reported success. */
  datatype Encoded = Encoded(bytes: string, ok: bool)

  /** A binary codec (gob in the source) given as a pair of oracles. */
  datatype Codec<!T> = Codec(encode: T -> Encoded, decode: string -> Option<T>)

  /** The only thing the model assumes of a codec: a successful encoding decodes back. */
  ghost predicate Lawful<T(!new)>(c: Codec<T>)
  {
    forall x :: c.encode(x).ok ==> c.decode(c.encode(x).bytes) == Some(x)
  }
}

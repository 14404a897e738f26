/** The two wrappers the other modules share, and a fact about sequences. */
module Wrappers {

  /** A value that may be absent: SQL NULL, a missing key, an undefined argument. */
  datatype Option<+T> = None | Some(value: T)

  /** A value, or the reason an operation was refused. */
  datatype Result<+T, +E> = Success(value: T) | Failure(error: E)

  lemma Regroup<T>(a: seq<T>, b: seq<T>, c: seq<T>)
    ensures a + (b + c) == a + b + c
  {
  }
}

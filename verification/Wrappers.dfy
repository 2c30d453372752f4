/** A value that may be missing, and the laws of sequences that proofs keep needing. */
module Wrappers {

  datatype Option<T> = None | Some(value: T)

  lemma Regroup<T>(a: seq<T>, b: seq<T>, c: seq<T>)
    ensures a + b + c == a + (b + c)
  {}
}

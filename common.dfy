/** Option and Result wrappers, and small sequence notions, shared by all modules. */
module Common {

  datatype Option<+T> = None | Some(value: T)

  /** The outcome of an operation that the C++ source may abort with an exception. */
  datatype Result<+T> = Success(value: T) | Failure(error: string)

  /** No two positions of s hold the same element. */
  predicate Distinct<T(==)>(s: seq<T>)
  {
    forall i, j :: 0 <= i < j < |s| ==> s[i] != s[j]
  }
}

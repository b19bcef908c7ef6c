/** The optional-value type shared by the model. */
module Wrappers {

  /** An optional value: the model's stand-in for Python's `None` (a missing row,
      a NULL column, an id that resolves to nothing). */
  datatype Option<+T> = None | Some(value: T)

  /** No element occurs twice. */
  predicate Distinct<T(==)>(s: seq<T>) {
    forall i, j :: 0 <= i < j < |s| ==> s[i] != s[j]
  }
}

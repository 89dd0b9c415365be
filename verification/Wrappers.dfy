/** The result types and the few notions on sequences that the other modules share. */
module Wrappers {

  datatype Option<+T> = None | Some(value: T)

  datatype Result<+T, +E> = Ok(value: T) | Err(error: E)

  predicate Distinct<T(==)>(q: seq<T>) {
    forall i, j :: 0 <= i < j < |q| ==> q[i] != q[j]
  }

  lemma OneMore<T>(q: seq<T>, k: nat)
    requires k < |q|
    ensures q[..k + 1] == q[..k] + [q[k]]
  {
  }
}

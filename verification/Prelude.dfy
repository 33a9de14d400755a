/** Small datatypes and sequence helpers shared by the other modules. */
module Prelude {

  datatype Option<+T> = None | Some(value: T)

  datatype Result<+T, +E> = Success(value: T) | Failure(error: E)

  /** The value stored under `k`, or `default` when the key is absent (`dict.get`). */
  function GetOr<K, V>(m: map<K, V>, k: K, default: V): V {
    if k in m then m[k] else default
  }

  function Abs(x: real): (r: real)
    ensures r == x || r == -x
    ensures r >= 0.0
  {
    if x < 0.0 then -x else x
  }

  ghost predicate Distinct<T>(xs: seq<T>) {
    forall i, j :: 0 <= i < j < |xs| ==> xs[i] != xs[j]
  }

  /** One more key visited by a loop that copies a dictionary. */
  lemma MapVisit<K, V>(m: map<K, V>, todo: set<K>, k: K)
    requires k in todo
    ensures m - (todo - {k}) == if k in m then (m - todo)[k := m[k]] else m - todo
  {
  }
}

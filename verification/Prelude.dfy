/** Vocabulary shared by every component of the model. */
module Prelude {

  datatype Option<+T> = None | Some(value: T)

  // Instants are microseconds since the epoch, in UTC.
  type Time = int

  const SECOND: int := 1_000_000
  const DAY: int := 86_400 * SECOND

  // The numbers 0, 1, ..., n - 1, in order.
  function UpTo(n: nat): (r: seq<int>)
    ensures |r| == n
    ensures forall i :: 0 <= i < n ==> r[i] == i
  {
    seq(n, i => i)
  }

  // A sequence without repetitions.
  ghost predicate Distinct<T>(s: seq<T>) {
    forall i, j :: 0 <= i < j < |s| ==> s[i] != s[j]
  }
}

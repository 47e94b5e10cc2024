/** Result types shared by the component models. */
module Wrappers {
  datatype Option<+T> = None | Some(value: T)

  datatype Result<+T, +E> = Success(value: T) | Failure(error: E)

  /** Indices in order: what they pick from a sequence keeps its order, and nothing is picked twice. */
  predicate Increasing(picks: seq<nat>) { forall a, b :: 0 <= a < b < |picks| ==> picks[a] < picks[b] }

  lemma {:induction false} PickNext(picks: seq<nat>, n: nat)
    requires Increasing(picks) && forall k :: 0 <= k < |picks| ==> picks[k] < n
    ensures Increasing(picks + [n])
    ensures forall i: nat :: i in picks + [n] <==> i in picks || i == n
  {
  }
}

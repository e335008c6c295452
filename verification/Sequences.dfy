// Cutting one element out of a sequence, by place or by value.
module Sequences {
  function RemoveAt<T>(q: seq<T>, k: nat): seq<T>
    requires k < |q|
  {
    q[..k] + q[k + 1..]
  }

  /** q without its first x. */
  function RemoveFirst<T(==)>(q: seq<T>, x: T): seq<T> {
    if q == [] then [] else if q[0] == x then q[1..] else [q[0]] + RemoveFirst(q[1..], x)
  }

  lemma ElementsLeft<T>(q: seq<T>, k: nat)
    requires k < |q|
    ensures var r := RemoveAt(q, k);
      |r| == |q| - 1 && forall i :: 0 <= i < |r| ==> r[i] == q[if i < k then i else i + 1]
  {
  }

  /** Removing the first of equal values is removing it at its place. */
  lemma {:induction false} FirstIsAt<T>(q: seq<T>, k: nat)
    requires k < |q| && forall i :: 0 <= i < k ==> q[i] != q[k]
    ensures RemoveFirst(q, q[k]) == RemoveAt(q, k)
  {
    if k > 0 {
      assert q[0] != q[k];
      FirstIsAt(q[1..], k - 1);
      assert q[1..][..k - 1] == q[1..k] && q[..k] == [q[0]] + q[1..k];
    }
  }

  lemma {:induction false} NothingToRemove<T>(q: seq<T>, x: T)
    requires x !in q
    ensures RemoveFirst(q, x) == q
  {
    if q != [] {
      NothingToRemove(q[1..], x);
    }
  }
}

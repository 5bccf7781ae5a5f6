/** What several parts say about sequences. */
module Sequences {

  /** No element occurs twice. */
  predicate Distinct<T(==)>(xs: seq<T>) {
    forall i, j | 0 <= i < j < |xs| :: xs[i] != xs[j]
  }

  /** `xs` without the first `x`. */
  function Remove<T(==)>(xs: seq<T>, x: T): seq<T> {
    if xs == [] then [] else if xs[0] == x then xs[1..] else [xs[0]] + Remove(xs[1..], x)
  }

  /** The position of the first `x`, or the length. */
  function Find<T(==)>(xs: seq<T>, x: T): (i: nat)
    ensures i <= |xs| && x !in xs[..i]
    ensures i < |xs| ==> xs[i] == x
    ensures i < |xs| <==> x in xs
  {
    if xs == [] || xs[0] == x then 0
    else
      var i := Find(xs[1..], x);
      assert xs[..i + 1] == [xs[0]] + xs[1..][..i];
      i + 1
  }
}

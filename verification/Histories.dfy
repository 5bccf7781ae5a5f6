/** What is said about the past of a run: a sequence of what happened, the last at its end. */
module Histories {

  /** It has happened. */
  predicate Ever<T>(past: seq<T>, on: T -> bool) {
    exists i | 0 <= i < |past| :: on(past[i])
  }

  /** The one has happened, and the other has not since. */
  predicate Since<T>(past: seq<T>, on: T -> bool, off: T -> bool) {
    exists i | 0 <= i < |past| :: on(past[i]) && forall k | i < k < |past| :: !off(past[k])
  }

  function Count<T>(past: seq<T>, on: T -> bool): nat {
    if past == [] then 0 else Count(past[..|past| - 1], on) + if on(past[|past| - 1]) then 1 else 0
  }

  /** What each of them contributes, in order. */
  function Collected<T, U>(past: seq<T>, from: T -> seq<U>): seq<U> {
    if past == [] then [] else Collected(past[..|past| - 1], from) + from(past[|past| - 1])
  }

  // ----- one more -----

  lemma EverNext<T>(past: seq<T>, x: T, on: T -> bool)
    ensures Ever(past + [x], on) <==> Ever(past, on) || on(x)
  {
    var all := past + [x];
    assert all[|past|] == x;
    if i :| 0 <= i < |past| && on(past[i]) {
      assert on(all[i]);
    }
  }

  lemma EverImplies<T>(past: seq<T>, on: T -> bool, other: T -> bool)
    requires forall x :: on(x) ==> other(x)
    ensures Ever(past, on) ==> Ever(past, other)
  {
    if i :| 0 <= i < |past| && on(past[i]) {
      assert other(past[i]);
    }
  }

  lemma SinceNext<T>(past: seq<T>, x: T, on: T -> bool, off: T -> bool)
    ensures Since(past + [x], on, off) <==> on(x) || (Since(past, on, off) && !off(x))
  {
    var all := past + [x];
    assert all[|past|] == x;
    if i :| 0 <= i < |past| && on(past[i]) && forall k | i < k < |past| :: !off(past[k]) {
      assert on(all[i]);
      assert !off(x) ==> forall k | i < k < |all| :: !off(all[k]);
    }
    if i :| 0 <= i < |all| && on(all[i]) && forall k | i < k < |all| :: !off(all[k]) {
      if i < |past| {
        assert on(past[i]) && !off(all[|past|]);
        assert forall k | i < k < |past| :: all[k] == past[k];
      }
    }
  }

  lemma SinceIsEver<T>(past: seq<T>, on: T -> bool, off: T -> bool)
    ensures Since(past, on, off) ==> Ever(past, on)
  {
  }

  lemma CountNext<T>(past: seq<T>, x: T, on: T -> bool)
    ensures Count(past + [x], on) == Count(past, on) + if on(x) then 1 else 0
  {
    assert (past + [x])[..|past|] == past;
  }

  lemma CollectedNext<T, U>(past: seq<T>, x: T, from: T -> seq<U>)
    ensures Collected(past + [x], from) == Collected(past, from) + from(x)
  {
    assert (past + [x])[..|past|] == past;
  }
}

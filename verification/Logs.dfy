/** Counting the entries of a log that have a property. */
module Logs {

  function Count<E>(log: seq<E>, p: E -> bool): nat
  {
    if log == [] then 0 else Count(log[..|log| - 1], p) + if p(log[|log| - 1]) then 1 else 0
  }

  lemma CountOneMore<E>(log: seq<E>, e: E, p: E -> bool)
    ensures Count(log + [e], p) == Count(log, p) + if p(e) then 1 else 0
  {
    assert (log + [e])[..|log|] == log;
  }

  lemma {:induction false} CountConcat<E>(a: seq<E>, b: seq<E>, p: E -> bool)
    ensures Count(a + b, p) == Count(a, p) + Count(b, p)
  {
    if b == [] {
      assert a + b == a;
    } else {
      CountConcat(a, b[..|b| - 1], p);
      assert (a + b)[..|a + b| - 1] == a + b[..|b| - 1];
    }
  }

  /** Only the first entry can have the property. */
  lemma {:induction false} CountFirst<E>(log: seq<E>, p: E -> bool)
    requires forall i :: 0 < i < |log| ==> !p(log[i])
    ensures Count(log, p) == if log != [] && p(log[0]) then 1 else 0
  {
    if log != [] {
      CountFirst(log[..|log| - 1], p);
    }
  }

  lemma {:induction false} CountGrows<E>(before: seq<E>, after: seq<E>, p: E -> bool)
    requires before <= after
    ensures Count(before, p) <= Count(after, p)
    decreases |after|
  {
    if |before| < |after| {
      CountGrows(before, after[..|after| - 1], p);
    } else {
      assert before == after;
    }
  }

  /** A log that went on without counting more got no entry with the property. */
  lemma {:induction false} NoneAdded<E>(before: seq<E>, after: seq<E>, p: E -> bool, i: nat)
    requires before <= after && Count(after, p) == Count(before, p) && |before| <= i < |after|
    ensures !p(after[i])
    decreases |after|
  {
    var shorter := after[..|after| - 1];
    CountGrows(before, shorter, p);
    if i < |shorter| {
      NoneAdded(before, shorter, p, i);
    }
  }
}

/** Sums over the threads of a concurrent machine, one weight per thread. */
module Totals {

  function Total<T>(threads: seq<T>, weight: T -> int): int {
    if threads == [] then 0 else Total(threads[..|threads| - 1], weight) + weight(threads[|threads| - 1])
  }

  /** When one thread moves, a total changes by that thread's change of weight. */
  lemma {:induction false} TotalUpdate<T>(threads: seq<T>, i: nat, t: T, weight: T -> int)
    requires i < |threads|
    ensures Total(threads[i := t], weight) == Total(threads, weight) - weight(threads[i]) + weight(t)
  {
    var last := |threads| - 1;
    var moved := threads[i := t];
    if i == last {
      assert moved[..last] == threads[..last];
    } else {
      assert moved[..last] == threads[..last][i := t];
      TotalUpdate(threads[..last], i, t, weight);
    }
  }

  lemma {:induction false} TotalBounds<T>(threads: seq<T>, weight: T -> int, low: int, high: int)
    requires forall i :: 0 <= i < |threads| ==> low <= weight(threads[i]) <= high
    ensures |threads| * low <= Total(threads, weight) <= |threads| * high
  {
    if threads != [] {
      TotalBounds(threads[..|threads| - 1], weight, low, high);
      var n := |threads| - 1;
      assert (n + 1) * low == n * low + low && (n + 1) * high == n * high + high;
    }
  }

  /** A total of nonnegative weights is at least each weight, and at least any two of them. */
  lemma {:induction false} TotalCoversTwo<T>(threads: seq<T>, weight: T -> int, i: nat, j: nat)
    requires i < j < |threads|
    requires forall k :: 0 <= k < |threads| ==> weight(threads[k]) >= 0
    ensures weight(threads[i]) + weight(threads[j]) <= Total(threads, weight)
  {
    var last := |threads| - 1;
    if j < last {
      TotalCoversTwo(threads[..last], weight, i, j);
    } else {
      TotalCovers(threads[..last], weight, i);
    }
  }

  lemma {:induction false} TotalCovers<T>(threads: seq<T>, weight: T -> int, i: nat)
    requires i < |threads|
    requires forall k :: 0 <= k < |threads| ==> weight(threads[k]) >= 0
    ensures weight(threads[i]) <= Total(threads, weight)
  {
    var last := |threads| - 1;
    if i < last {
      TotalCovers(threads[..last], weight, i);
    } else {
      TotalIsNonnegative(threads[..last], weight);
    }
  }

  lemma {:induction false} TotalIsNonnegative<T>(threads: seq<T>, weight: T -> int)
    requires forall k :: 0 <= k < |threads| ==> weight(threads[k]) >= 0
    ensures Total(threads, weight) >= 0
  {
    if threads != [] {
      TotalIsNonnegative(threads[..|threads| - 1], weight);
    }
  }

  lemma {:induction false} TotalIsZero<T>(threads: seq<T>, weight: T -> int)
    requires forall k :: 0 <= k < |threads| ==> weight(threads[k]) == 0
    ensures Total(threads, weight) == 0
  {
    if threads != [] {
      TotalIsZero(threads[..|threads| - 1], weight);
    }
  }

  /** Pointwise comparison of weights carries over to totals. */
  lemma {:induction false} TotalMonotone<T>(threads: seq<T>, small: T -> int, large: T -> int)
    requires forall k :: 0 <= k < |threads| ==> small(threads[k]) <= large(threads[k])
    ensures Total(threads, small) <= Total(threads, large)
  {
    if threads != [] {
      TotalMonotone(threads[..|threads| - 1], small, large);
    }
  }
}

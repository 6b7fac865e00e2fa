/** Sums of integers over a sequence. */
module Sums {

  function Sum<T>(f: T -> int, xs: seq<T>): int {
    if xs == [] then 0 else f(xs[0]) + Sum(f, xs[1..])
  }

  lemma {:induction false} SumUpdate<T>(f: T -> int, xs: seq<T>, i: nat, x: T)
    requires i < |xs|
    ensures Sum(f, xs[i := x]) == Sum(f, xs) - f(xs[i]) + f(x)
  {
    if i > 0 {
      assert xs[i := x][1..] == xs[1..][i - 1 := x];
      SumUpdate(f, xs[1..], i - 1, x);
    }
  }

  lemma {:induction false} SumAppend<T>(f: T -> int, xs: seq<T>, x: T)
    ensures Sum(f, xs + [x]) == Sum(f, xs) + f(x)
  {
    if xs != [] {
      assert (xs + [x])[1..] == xs[1..] + [x];
      SumAppend(f, xs[1..], x);
    }
  }

  lemma {:induction false} SumOfZeros<T>(f: T -> int, xs: seq<T>)
    requires forall i :: 0 <= i < |xs| ==> f(xs[i]) == 0
    ensures Sum(f, xs) == 0
  {
    if xs != [] {
      SumOfZeros(f, xs[1..]);
    }
  }

  /** All elements but one count for nothing. */
  lemma {:induction false} SumOfOne<T>(f: T -> int, xs: seq<T>, k: nat)
    requires k < |xs| && forall i :: 0 <= i < |xs| && i != k ==> f(xs[i]) == 0
    ensures Sum(f, xs) == f(xs[k])
  {
    if k == 0 {
      SumOfZeros(f, xs[1..]);
    } else {
      SumOfOne(f, xs[1..], k - 1);
    }
  }

  /** A sum of non-negative numbers is at least each of them; it is zero only if all are. */
  lemma {:induction false} SumAtLeast<T>(f: T -> int, xs: seq<T>, k: nat)
    requires k <= |xs| && forall i :: 0 <= i < |xs| ==> f(xs[i]) >= 0
    ensures Sum(f, xs) >= if k < |xs| then f(xs[k]) else 0
  {
    if xs != [] {
      SumAtLeast(f, xs[1..], if k == 0 then |xs| - 1 else k - 1);
    }
  }

  lemma {:induction false} SumAtLeastTwo<T>(f: T -> int, xs: seq<T>, i: nat, j: nat)
    requires i < j < |xs| && forall k :: 0 <= k < |xs| ==> f(xs[k]) >= 0
    ensures Sum(f, xs) >= f(xs[i]) + f(xs[j])
  {
    if i == 0 {
      SumAtLeast(f, xs[1..], j - 1);
    } else {
      SumAtLeastTwo(f, xs[1..], i - 1, j - 1);
    }
  }
}

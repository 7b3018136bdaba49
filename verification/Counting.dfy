/** Sums of a weight over a sequence, used to count the threads, calls or
    connections of a protocol that are in a given phase. */
module Counting {

  function Sum<T>(xs: seq<T>, f: T -> nat): nat {
    if xs == [] then 0 else Sum(xs[..|xs| - 1], f) + f(xs[|xs| - 1])
  }

  lemma {:induction false} SumAppend<T>(xs: seq<T>, x: T, f: T -> nat)
    ensures Sum(xs + [x], f) == Sum(xs, f) + f(x)
  {
    assert (xs + [x])[..|xs|] == xs;
  }

  lemma {:induction false} SumUpdate<T>(xs: seq<T>, i: nat, x: T, f: T -> nat)
    requires i < |xs|
    ensures Sum(xs[i := x], f) + f(xs[i]) == Sum(xs, f) + f(x)
  {
    var n := |xs| - 1;
    if i == n {
      assert xs[i := x][..n] == xs[..n];
    } else {
      SumUpdate(xs[..n], i, x, f);
      assert xs[i := x][..n] == xs[..n][i := x];
    }
  }

  /** One element weighs at most the whole sum, and two distinct ones together too. */
  lemma {:induction false} SumBounds<T>(xs: seq<T>, i: nat, j: nat, f: T -> nat)
    requires i < |xs| && j < |xs|
    ensures f(xs[i]) <= Sum(xs, f)
    ensures i != j ==> f(xs[i]) + f(xs[j]) <= Sum(xs, f)
  {
    var n := |xs| - 1;
    if i < n && j < n {
      SumBounds(xs[..n], i, j, f);
    } else if i < n {
      SumBounds(xs[..n], i, i, f);
    } else if j < n {
      SumBounds(xs[..n], j, j, f);
    }
  }

  /** A positive sum has a positive element. */
  lemma {:induction false} SumWitness<T>(xs: seq<T>, f: T -> nat) returns (i: nat)
    requires Sum(xs, f) > 0
    ensures i < |xs| && f(xs[i]) > 0
  {
    var n := |xs| - 1;
    if f(xs[n]) > 0 {
      i := n;
    } else {
      i := SumWitness(xs[..n], f);
    }
  }

  lemma {:induction false} SumCongruent<T>(xs: seq<T>, f: T -> nat, g: T -> nat)
    requires forall i :: 0 <= i < |xs| ==> f(xs[i]) == g(xs[i])
    ensures Sum(xs, f) == Sum(xs, g)
  {
    if xs != [] {
      SumCongruent(xs[..|xs| - 1], f, g);
    }
  }
}

/** Sums of a measure over a sequence, and how they change with one element. */
module Sums {

  function Total<T>(xs: seq<T>, f: T -> nat): nat
  {
    if xs == [] then 0 else Total(xs[..|xs| - 1], f) + f(xs[|xs| - 1])
  }

  lemma {:induction false} TotalUpdate<T>(xs: seq<T>, f: T -> nat, i: nat, x: T)
    requires i < |xs|
    ensures Total(xs[i := x], f) == Total(xs, f) - f(xs[i]) + f(x)
    ensures Total(xs, f) >= f(xs[i])
    decreases |xs|
  {
    var n := |xs| - 1;
    if i == n {
      assert xs[i := x][..n] == xs[..n];
    } else {
      TotalUpdate(xs[..n], f, i, x);
      assert xs[i := x][..n] == xs[..n][i := x];
    }
  }

  lemma TotalSnoc<T>(xs: seq<T>, f: T -> nat, x: T)
    ensures Total(xs + [x], f) == Total(xs, f) + f(x)
  {
    assert (xs + [x])[..|xs|] == xs;
  }

  lemma {:induction false} TotalPositive<T>(xs: seq<T>, f: T -> nat) returns (i: nat)
    requires Total(xs, f) > 0
    ensures i < |xs| && f(xs[i]) > 0
    decreases |xs|
  {
    var n := |xs| - 1;
    if f(xs[n]) > 0 {
      i := n;
    } else {
      i := TotalPositive(xs[..n], f);
    }
  }
}

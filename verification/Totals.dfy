/** Sums over the threads of a pool. */
module Totals {

  function Sum<T>(xs: seq<T>, f: T -> nat): nat {
    if xs == [] then 0 else Sum(xs[..|xs| - 1], f) + f(xs[|xs| - 1])
  }

  lemma {:induction false} SumUpdate<T>(xs: seq<T>, f: T -> nat, i: nat, x: T)
    requires i < |xs|
    ensures Sum(xs[i := x], f) == Sum(xs, f) - f(xs[i]) + f(x)
  {
    var last := |xs| - 1;
    if i == last {
      assert xs[i := x][..last] == xs[..last];
    } else {
      SumUpdate(xs[..last], f, i, x);
      assert xs[i := x][..last] == xs[..last][i := x];
    }
  }

  lemma {:induction false} SumPositive<T>(xs: seq<T>, f: T -> nat) returns (i: nat)
    requires 0 < Sum(xs, f)
    ensures i < |xs| && 0 < f(xs[i])
  {
    var last := |xs| - 1;
    if 0 < f(xs[last]) {
      i := last;
    } else {
      i := SumPositive(xs[..last], f);
    }
  }

  lemma {:induction false} SumMonotone<T>(xs: seq<T>, ys: seq<T>, f: T -> nat)
    requires |xs| == |ys|
    requires forall i :: 0 <= i < |xs| ==> f(ys[i]) <= f(xs[i])
    ensures Sum(ys, f) <= Sum(xs, f)
  {
    if xs != [] {
      var last := |xs| - 1;
      SumMonotone(xs[..last], ys[..last], f);
    }
  }
}

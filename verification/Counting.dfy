/** Weighted sums over sequences, used by several of the step systems. */
module Counting {

  /** The sum of `w` over `xs`. */
  ghost function Total<T>(xs: seq<T>, w: T -> nat): nat {
    if xs == [] then 0 else w(xs[0]) + Total(xs[1..], w)
  }

  lemma {:induction false} TotalUpdate<T>(xs: seq<T>, i: nat, x: T, w: T -> nat)
    requires i < |xs|
    ensures Total(xs[i := x], w) + w(xs[i]) == Total(xs, w) + w(x)
  {
    if i == 0 {
      assert xs[i := x][1..] == xs[1..];
    } else {
      assert xs[i := x][1..] == xs[1..][i - 1 := x];
      TotalUpdate(xs[1..], i - 1, x, w);
    }
  }

  lemma {:induction false} TotalAppend<T>(xs: seq<T>, x: T, w: T -> nat)
    ensures Total(xs + [x], w) == Total(xs, w) + w(x)
  {
    if xs == [] {
      assert xs + [x] == [x];
    } else {
      assert (xs + [x])[1..] == xs[1..] + [x];
      TotalAppend(xs[1..], x, w);
    }
  }

  lemma {:induction false} TotalAtLeast<T>(xs: seq<T>, i: nat, w: T -> nat)
    requires i < |xs|
    ensures Total(xs, w) >= w(xs[i])
  {
    if i > 0 {
      TotalAtLeast(xs[1..], i - 1, w);
    }
  }

  lemma {:induction false} TotalZero<T>(xs: seq<T>, w: T -> nat)
    requires forall i :: 0 <= i < |xs| ==> w(xs[i]) == 0
    ensures Total(xs, w) == 0
  {
    if xs != [] {
      assert forall i :: 0 <= i < |xs[1..]| ==> xs[1..][i] == xs[i + 1];
      TotalZero(xs[1..], w);
    }
  }

  lemma {:induction false} TotalPositive<T>(xs: seq<T>, w: T -> nat) returns (i: nat)
    requires Total(xs, w) > 0
    ensures i < |xs| && w(xs[i]) > 0
  {
    if w(xs[0]) > 0 {
      i := 0;
    } else {
      i := TotalPositive(xs[1..], w);
      i := i + 1;
    }
  }
}

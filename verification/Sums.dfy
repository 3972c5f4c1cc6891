/** Sums of natural numbers, as the loops of the program form them: from the front. */
module Sums {
  function Sum(xs: seq<nat>): nat {
    if xs == [] then 0 else Sum(xs[..|xs| - 1]) + xs[|xs| - 1]
  }

  lemma LastOfSum(xs: seq<nat>)
    requires xs != []
    ensures Sum(xs) == Sum(xs[..|xs| - 1]) + xs[|xs| - 1]
  {
  }

  /** Two lists equal but at `i` have sums that differ by that element. */
  lemma {:induction false} SumsDifferAt(xs: seq<nat>, ys: seq<nat>, i: nat)
    requires |xs| == |ys| && i < |xs|
    requires forall k :: 0 <= k < |xs| && k != i ==> xs[k] == ys[k]
    ensures Sum(xs) + ys[i] == Sum(ys) + xs[i]
  {
    var n := |xs| - 1;
    if i == n {
      assert xs[..n] == ys[..n];
    } else {
      SumsDifferAt(xs[..n], ys[..n], i);
    }
  }

  /** Dropping an element takes it off the sum. */
  lemma {:induction false} SumWithout(xs: seq<nat>, i: nat)
    requires i < |xs|
    ensures Sum(xs[..i] + xs[i + 1..]) + xs[i] == Sum(xs)
  {
    var n, ys := |xs| - 1, xs[..i] + xs[i + 1..];
    if i == n {
      assert ys == xs[..n];
    } else {
      SumWithout(xs[..n], i);
      assert ys[..|ys| - 1] == xs[..n][..i] + xs[..n][i + 1..];
    }
  }

  lemma ElementWithinSum(xs: seq<nat>, i: nat)
    requires i < |xs|
    ensures xs[i] <= Sum(xs)
  {
    SumsDifferAt(xs, xs[i := 0], i);
  }
}

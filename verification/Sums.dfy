/** Sums of integer sequences. */
module Sums {

  function Sum(xs: seq<int>): int {
    if xs == [] then 0 else Sum(xs[..|xs| - 1]) + xs[|xs| - 1]
  }

  lemma SumAppend(xs: seq<int>, x: int)
    ensures Sum(xs + [x]) == Sum(xs) + x
  {
    assert (xs + [x])[..|xs|] == xs;
  }

  lemma {:induction false} SumUpdate(xs: seq<int>, j: nat, x: int)
    requires j < |xs|
    ensures Sum(xs[j := x]) == Sum(xs) - xs[j] + x
  {
    var n := |xs| - 1;
    if j == n {
      assert xs[j := x][..n] == xs[..n];
    } else {
      assert xs[j := x][..n] == xs[..n][j := x];
      SumUpdate(xs[..n], j, x);
    }
  }

  lemma {:induction false} SumAtMost(xs: seq<int>, ys: seq<int>)
    requires |xs| == |ys| && forall j | 0 <= j < |xs| :: xs[j] <= ys[j]
    ensures Sum(xs) <= Sum(ys)
  {
    if xs != [] {
      SumAtMost(xs[..|xs| - 1], ys[..|ys| - 1]);
    }
  }

  lemma {:induction false} SumNonNegative(xs: seq<int>)
    requires forall i | 0 <= i < |xs| :: 0 <= xs[i]
    ensures 0 <= Sum(xs)
  {
    if xs != [] {
      SumNonNegative(xs[..|xs| - 1]);
    }
  }

  /** Entries of at most w; those that are not zero sit at pairwise different places among n. */
  predicate Spread(xs: seq<int>, places: seq<int>, lo: int, n: nat, w: nat) {
    && |xs| == |places| && (forall j | 0 <= j < |xs| :: xs[j] <= w && (xs[j] != 0 ==> lo <= places[j] < lo + n))
    && (forall i, j | 0 <= i < j < |xs| && xs[i] != 0 && xs[j] != 0 :: places[i] != places[j])
  }

  lemma {:induction false} SpreadSum(xs: seq<int>, places: seq<int>, lo: int, n: nat, w: nat)
    requires Spread(xs, places, lo, n, w)
    ensures Sum(xs) <= n * w
    decreases n
  {
    if n == 0 {
      ZeroSum(xs);
    } else {
      assert n * w == (n - 1) * w + w;
      if j: nat :| j < |xs| && xs[j] != 0 && places[j] == lo + n - 1 {
        SumUpdate(xs, j, 0);
        DropLast(xs, places, lo, n, w, j);
        SpreadSum(xs[j := 0], places, lo, n - 1, w);
      } else {
        SpreadSum(xs, places, lo, n - 1, w);
      }
    }
  }

  lemma DropLast(xs: seq<int>, places: seq<int>, lo: int, n: nat, w: nat, j: nat)
    requires Spread(xs, places, lo, n, w) && 0 < n && j < |xs| && xs[j] != 0 && places[j] == lo + n - 1
    ensures Spread(xs[j := 0], places, lo, n - 1, w)
  {
  }

  lemma {:induction false} ZeroSum(xs: seq<int>)
    requires forall i | 0 <= i < |xs| :: xs[i] == 0
    ensures Sum(xs) == 0
  {
    if xs != [] {
      ZeroSum(xs[..|xs| - 1]);
    }
  }
}

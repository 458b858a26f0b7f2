/** Small shared vocabulary: optional values, minima and maxima, and sums over sequences. */
module Prelude {
  datatype Option<+T> = None | Some(value: T)

  function Min(a: int, b: int): int { if a < b then a else b }

  function Max(a: int, b: int): int { if a < b then b else a }

  /** The weights of all elements of `xs`, added up. */
  ghost function Total<T>(xs: seq<T>, weight: T -> int): int {
    if xs == [] then 0 else Total(xs[..|xs| - 1], weight) + weight(xs[|xs| - 1])
  }

  lemma TotalAppend<T>(xs: seq<T>, x: T, weight: T -> int)
    ensures Total(xs + [x], weight) == Total(xs, weight) + weight(x)
  {
    assert (xs + [x])[..|xs|] == xs;
  }

  lemma {:induction false} TotalUpdate<T>(xs: seq<T>, i: nat, x: T, weight: T -> int)
    requires i < |xs|
    ensures Total(xs[i := x], weight) == Total(xs, weight) - weight(xs[i]) + weight(x)
  {
    var last := |xs| - 1;
    if i == last {
      assert xs[i := x][..last] == xs[..last];
    } else {
      TotalUpdate(xs[..last], i, x, weight);
      assert xs[i := x][..last] == xs[..last][i := x];
    }
  }

  lemma {:induction false} TotalPointwise<T>(xs: seq<T>, ys: seq<T>, weight: T -> int)
    requires |xs| == |ys| && forall i :: 0 <= i < |xs| ==> weight(xs[i]) == weight(ys[i])
    ensures Total(xs, weight) == Total(ys, weight)
  {
    if xs != [] {
      TotalPointwise(xs[..|xs| - 1], ys[..|ys| - 1], weight);
    }
  }

  lemma {:induction false} TotalOfTwo<T>(xs: seq<T>, i: nat, j: nat, weight: T -> int)
    requires i < j < |xs| && weight(xs[i]) == weight(xs[j]) == 1
    requires forall k :: 0 <= k < |xs| ==> weight(xs[k]) >= 0
    ensures Total(xs, weight) >= 2
  {
    var front := xs[..|xs| - 1];
    if j < |xs| - 1 {
      TotalOfTwo(front, i, j, weight);
    } else {
      TotalOfOne(front, i, weight);
    }
  }

  lemma {:induction false} TotalOfOne<T>(xs: seq<T>, i: nat, weight: T -> int)
    requires i < |xs| && weight(xs[i]) == 1
    requires forall k :: 0 <= k < |xs| ==> weight(xs[k]) >= 0
    ensures Total(xs, weight) >= 1
  {
    var front := xs[..|xs| - 1];
    if i < |xs| - 1 {
      TotalOfOne(front, i, weight);
    } else {
      TotalNotNegative(front, weight);
    }
  }

  lemma {:induction false} TotalNotNegative<T>(xs: seq<T>, weight: T -> int)
    requires forall k :: 0 <= k < |xs| ==> weight(xs[k]) >= 0
    ensures Total(xs, weight) >= 0
  {
    if xs != [] {
      TotalNotNegative(xs[..|xs| - 1], weight);
    }
  }

  lemma OneMore(n: nat, m: nat)
    ensures (n + 1) * m == n * m + m
  {
  }
}

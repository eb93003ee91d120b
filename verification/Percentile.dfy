/** The noise floor as a percentile of a histogram of 16-bit samples. */
module Percentile {
  const LEVELS: nat := 65536

  type Histogram = h: seq<nat> | |h| == 65536 witness seq(65536, i => 0)

  function Empty(): Histogram { seq(65536, i => 0) }

  predicate Sample16(x: nat) { x < LEVELS }

  predicate Samples(xs: seq<nat>)
  {
    forall i :: 0 <= i < |xs| ==> Sample16(xs[i])
  }

  function Added(h: Histogram, x: nat): Histogram
    requires Sample16(x)
  {
    h[x := h[x] + 1]
  }

  function AddedAll(h: Histogram, xs: seq<nat>): Histogram
    requires Samples(xs)
  {
    if xs == [] then h else Added(AddedAll(h, xs[..|xs| - 1]), xs[|xs| - 1])
  }

  /** The number of samples counted below level `k`. */
  function Below(h: Histogram, k: nat): nat
    requires k <= LEVELS
  {
    if k == 0 then 0 else Below(h, k - 1) + h[k - 1]
  }

  /** Whether `level` is where the walk over a histogram stops for index `n`. */
  predicate Stops(h: Histogram, n: nat, level: nat)
  {
    level < LEVELS && (if n < Below(h, LEVELS) then Below(h, level) <= n < Below(h, level + 1) else level == LEVELS - 1)
  }

  /** The first level by which more than `n` samples are counted, or the top level. */
  method Walk(h: Histogram, n: nat) returns (level: nat)
    ensures Stops(h, n, level)
  {
    var count, i := 0, 0;
    while i < LEVELS && count <= n
      invariant i <= LEVELS && count == Below(h, i)
      invariant i > 0 ==> Below(h, i - 1) <= n
    {
      count := count + h[i];
      i := i + 1;
    }
    level := i - 1;
    if count > n {
      BelowGrows(h, i, LEVELS);
    }
  }

  lemma {:induction false} BelowGrows(h: Histogram, j: nat, k: nat)
    requires j <= k <= LEVELS
    ensures Below(h, j) <= Below(h, k)
    decreases k
  {
    if j < k {
      BelowGrows(h, j, k - 1);
    }
  }

  // ---------------------------------------------------------------------
  // The walk returns an element of the sorted samples
  // ---------------------------------------------------------------------

  function CountBelow(xs: seq<nat>, k: nat): nat
  {
    if xs == [] then 0 else CountBelow(xs[..|xs| - 1], k) + if xs[|xs| - 1] < k then 1 else 0
  }

  lemma {:induction false} AddedBelow(h: Histogram, x: nat, k: nat)
    requires Sample16(x) && k <= LEVELS
    ensures Below(Added(h, x), k) == Below(h, k) + if x < k then 1 else 0
  {
    if k > 0 {
      AddedBelow(h, x, k - 1);
    }
  }

  lemma {:induction false} EmptyBelow(k: nat)
    requires k <= LEVELS
    ensures Below(Empty(), k) == 0
  {
    if k > 0 {
      EmptyBelow(k - 1);
    }
  }

  lemma {:induction false} HistogramCounts(xs: seq<nat>, k: nat)
    requires Samples(xs) && k <= LEVELS
    ensures Below(AddedAll(Empty(), xs), k) == CountBelow(xs, k)
  {
    if xs == [] {
      EmptyBelow(k);
    } else {
      HistogramCounts(xs[..|xs| - 1], k);
      AddedBelow(AddedAll(Empty(), xs[..|xs| - 1]), xs[|xs| - 1], k);
    }
  }

  ghost predicate Sorted(xs: seq<nat>)
  {
    forall i, j :: 0 <= i < j < |xs| ==> xs[i] <= xs[j]
  }

  /** In sorted order the elements below a level come first. */
  lemma {:induction false} SortedCounts(xs: seq<nat>, k: nat, n: nat)
    requires Sorted(xs) && n < |xs|
    ensures xs[n] < k <==> n < CountBelow(xs, k)
    ensures CountBelow(xs, k) <= |xs|
  {
    var init := xs[..|xs| - 1];
    CountAtMost(init, k);
    if n < |init| {
      SortedCounts(init, k, n);
    } else if xs[n] < k {
      AllBelow(init, k);
    }
  }

  lemma {:induction false} CountAtMost(xs: seq<nat>, k: nat)
    ensures CountBelow(xs, k) <= |xs|
  {
    if xs != [] {
      CountAtMost(xs[..|xs| - 1], k);
    }
  }

  lemma {:induction false} AllBelow(xs: seq<nat>, k: nat)
    requires forall i :: 0 <= i < |xs| ==> xs[i] < k
    ensures CountBelow(xs, k) == |xs|
  {
    if xs != [] {
      AllBelow(xs[..|xs| - 1], k);
    }
  }

  /** Order does not matter to the histogram. */
  lemma {:induction false} AddedAllCounts(h: Histogram, xs: seq<nat>, v: nat)
    requires Samples(xs) && Sample16(v)
    ensures AddedAll(h, xs)[v] == h[v] + multiset(xs)[v]
  {
    if xs != [] {
      AddedAllCounts(h, xs[..|xs| - 1], v);
      assert xs == xs[..|xs| - 1] + [xs[|xs| - 1]];
    }
  }

  lemma SameHistogram(xs: seq<nat>, ys: seq<nat>)
    requires Samples(xs) && Samples(ys) && multiset(xs) == multiset(ys)
    ensures AddedAll(Empty(), xs) == AddedAll(Empty(), ys)
  {
    forall v | 0 <= v < LEVELS ensures AddedAll(Empty(), xs)[v] == AddedAll(Empty(), ys)[v] {
      AddedAllCounts(Empty(), xs, v);
      AddedAllCounts(Empty(), ys, v);
    }
  }

  lemma SamplesOfSame(xs: seq<nat>, ys: seq<nat>)
    requires Samples(xs) && multiset(xs) == multiset(ys)
    ensures Samples(ys) && |xs| == |ys|
  {
    forall i | 0 <= i < |ys| ensures Sample16(ys[i]) {
      assert ys[i] in multiset(ys);
      assert ys[i] in multiset(xs);
    }
    assert |multiset(xs)| == |multiset(ys)|;
  }

  /**
   Where the walk stops is the element at index `n` of the samples in sorted
   order; an index beyond the samples gives the top level.
   */
  lemma WalkIsOrderStatistic(xs: seq<nat>, sorted: seq<nat>, n: nat, level: nat)
    requires Samples(xs) && Sorted(sorted) && multiset(sorted) == multiset(xs)
    requires Stops(AddedAll(Empty(), xs), n, level)
    ensures |sorted| == |xs|
    ensures n < |xs| ==> level == sorted[n]
    ensures n >= |xs| ==> level == LEVELS - 1
  {
    SamplesOfSame(xs, sorted);
    SameHistogram(xs, sorted);
    HistogramCounts(sorted, LEVELS);
    AllBelow(sorted, LEVELS);
    if n < |xs| {
      HistogramCounts(sorted, level);
      HistogramCounts(sorted, level + 1);
      SortedCounts(sorted, level, n);
      SortedCounts(sorted, level + 1, n);
    }
  }

  /** The index looked up in a block of `count` samples. */
  function IndexOf(count: nat, percentile: nat): nat
  {
    count * percentile / 100
  }

  /** The index is the whole part of that share of the count. */
  lemma IndexIsShare(count: nat, percentile: nat, n: nat)
    ensures n == IndexOf(count, percentile) <==> 100 * n <= count * percentile < 100 * (n + 1)
  {
  }

  /** A percentile below one hundred of a block that is not empty is one of its samples. */
  lemma IndexInside(count: nat, percentile: nat)
    requires percentile < 100
    ensures IndexOf(count, percentile) < count <==> count > 0
  {
    if count > 0 {
      var n := count * percentile / 100;
      assert count * percentile <= count * 99 by { assert count * (99 - percentile) >= 0; }
      assert 100 * n <= count * percentile;
    }
  }
}

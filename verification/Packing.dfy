/** The uploader's batch count against packings that may reorder the tests. */
module Packing {
  import opened Sequences
  import opened Batching

  /** The total size of the tests that `assign` puts into bin `bin`. */
  function BinWeight(sizes: seq<nat>, assign: seq<nat>, bin: nat): nat
    requires |assign| == |sizes|
  {
    if sizes == [] then 0
    else
      var n := |sizes| - 1;
      BinWeight(sizes[..n], assign[..n], bin) + if assign[n] == bin then sizes[n] else 0
  }

  /** Every test goes to one of `bins` bins, in any order, and no bin exceeds `limit`. */
  ghost predicate IsPacking(sizes: seq<nat>, assign: seq<nat>, bins: nat, limit: nat) {
    && |assign| == |sizes|
    && (forall i :: 0 <= i < |assign| ==> assign[i] < bins)
    && (forall bin :: 0 <= bin < bins ==> BinWeight(sizes, assign, bin) <= limit)
  }

  function Load(sizes: seq<nat>, assign: seq<nat>, bins: nat): nat
    requires |assign| == |sizes|
  {
    if bins == 0 then 0 else Load(sizes, assign, bins - 1) + BinWeight(sizes, assign, bins - 1)
  }

  lemma {:induction false} LoadStep(sizes: seq<nat>, assign: seq<nat>, bins: nat)
    requires |assign| == |sizes| && sizes != []
    ensures var n := |sizes| - 1;
            Load(sizes, assign, bins) ==
            Load(sizes[..n], assign[..n], bins) + if assign[n] < bins then sizes[n] else 0
  {
    if bins > 0 {
      LoadStep(sizes, assign, bins - 1);
    }
  }

  lemma {:induction false} LoadEmpty(bins: nat)
    ensures Load([], [], bins) == 0
  {
    if bins > 0 {
      LoadEmpty(bins - 1);
    }
  }

  /** Nothing is lost or counted twice: the bins together weigh what the tests weigh. */
  lemma {:induction false} LoadIsTotal(sizes: seq<nat>, assign: seq<nat>, bins: nat, all: seq<nat>)
    requires |assign| == |sizes| && sizes <= all
    requires forall i :: 0 <= i < |assign| ==> assign[i] < bins
    ensures Load(sizes, assign, bins) == Weight(Range(0, |sizes|), all)
  {
    var n := |sizes| - 1;
    if sizes == [] {
      LoadEmpty(bins);
      assert Range(0, 0) == [];
    } else {
      LoadStep(sizes, assign, bins);
      LoadIsTotal(sizes[..n], assign[..n], bins, all);
      WeightRange(0, n, n + 1, all);
      assert Range(n, n + 1) == [n + 1];
      WeightOne(n + 1, all);
    }
  }

  lemma {:induction false} LoadBound(sizes: seq<nat>, assign: seq<nat>, bins: nat, limit: nat)
    requires |assign| == |sizes|
    requires forall bin :: 0 <= bin < bins ==> BinWeight(sizes, assign, bin) <= limit
    ensures Load(sizes, assign, bins) <= bins * limit
  {
    if bins > 0 {
      LoadBound(sizes, assign, bins - 1, limit);
      assert bins * limit == (bins - 1) * limit + limit;
    }
  }

  /** Two neighbouring batches never fit together. */
  lemma NeighboursOverflow(g: seq<seq<nat>>, sizes: seq<nat>, limit: nat, j: nat)
    requires IsGreedySplit(g, sizes, limit) && 1 <= j < |g|
    ensures Weight(g[j - 1], sizes) + Weight(g[j], sizes) > limit
  {
    hide IsGreedySplit;
    NextOverflows(g, sizes, limit, j);
    assert g[j] == g[j][..1] + g[j][1..];
    WeightAppend(g[j][..1], g[j][1..], sizes);
    assert g[j][..1] == [g[j][0]];
    WeightOne(g[j][0], sizes);
  }

  lemma {:induction false} PairsOverflow(g: seq<seq<nat>>, sizes: seq<nat>, limit: nat, pairs: nat)
    requires IsGreedySplit(g, sizes, limit) && 2 * pairs <= |g|
    ensures Weight(Concat(g[..2 * pairs]), sizes) >= pairs * (limit + 1)
  {
    hide IsGreedySplit, Concat, Weight;
    if pairs > 0 {
      var j := 2 * pairs - 1;
      PairsOverflow(g, sizes, limit, pairs - 1);
      NeighboursOverflow(g, sizes, limit, j);
      ConcatStep(g, j - 1);
      ConcatStep(g, j);
      WeightAppend(Concat(g[..j - 1]), g[j - 1], sizes);
      WeightAppend(Concat(g[..j]), g[j], sizes);
      assert pairs * (limit + 1) == (pairs - 1) * (limit + 1) + (limit + 1);
    }
  }

  /**
   Packing bound: if the tests fit at all into `bins` bins of the uploader's limit, in any order, the
   uploader makes at most 2 * bins - 1 batches.
   */
  lemma AtMostTwiceOptimal(g: seq<seq<nat>>, sizes: seq<nat>, limit: nat, assign: seq<nat>, bins: nat)
    requires sizes != [] && IsGreedySplit(g, sizes, limit) && IsPacking(sizes, assign, bins, limit)
    ensures |g| <= 2 * bins - 1
  {
    hide IsGreedySplit, Weight, Concat;
    assert assign[0] < bins;
    assert bins * (limit + 1) == bins * limit + bins;
    LoadBound(sizes, assign, bins, limit);
    LoadIsTotal(sizes, assign, bins, sizes);
    if |g| >= 2 * bins {
      GreedyCovers(g, sizes, limit);
      PairsOverflow(g, sizes, limit, bins);
      assert g == g[..2 * bins] + g[2 * bins..];
      ConcatAppend(g[..2 * bins], g[2 * bins..]);
      WeightAppend(Concat(g[..2 * bins]), Concat(g[2 * bins..]), sizes);
    }
  }
}

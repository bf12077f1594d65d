/** How an uploaded task's tests are cut into batches, and how good the cut is. */
module Batching {
  import opened Sequences

  /** The byte size of each test: its input and its expected output together. */
  function Sizes(inputTests: seq<string>, outputTests: seq<string>): (sizes: seq<nat>)
    requires |inputTests| <= |outputTests|
    ensures |sizes| == |inputTests|
  {
    seq(|inputTests|, i requires 0 <= i < |inputTests| => |inputTests[i]| + |outputTests[i]|)
  }

  /** The configured size, raised to the largest single test. */
  function Limit(sizes: seq<nat>, configured: nat): nat {
    if sizes == [] then configured
    else
      var before, last := Limit(sizes[..|sizes| - 1], configured), sizes[|sizes| - 1];
      if before < last then last else before
  }

  lemma {:induction false} LimitMeaning(sizes: seq<nat>, configured: nat)
    ensures configured <= Limit(sizes, configured)
    ensures forall i :: 0 <= i < |sizes| ==> sizes[i] <= Limit(sizes, configured)
    ensures Limit(sizes, configured) == configured || Limit(sizes, configured) in sizes
  {
    if sizes != [] {
      LimitMeaning(sizes[..|sizes| - 1], configured);
    }
  }

  lemma {:induction false} LimitMonotone(sizes: seq<nat>, configured: nat, larger: nat)
    requires configured <= larger
    ensures Limit(sizes, configured) <= Limit(sizes, larger)
  {
    if sizes != [] {
      LimitMonotone(sizes[..|sizes| - 1], configured, larger);
    }
  }

  /** The test ids after the first `lo` tests up to test `hi`. */
  function Range(lo: nat, hi: nat): (ids: seq<nat>)
    requires lo <= hi
    ensures |ids| == hi - lo
    ensures forall i :: 0 <= i < |ids| ==> ids[i] == lo + i + 1
  {
    seq(hi - lo, i requires 0 <= i => lo + i + 1)
  }

  function SizeOf(sizes: seq<nat>, id: nat): nat {
    if 1 <= id <= |sizes| then sizes[id - 1] else 0
  }

  /** The total size of a batch of test ids. */
  function Weight(batch: seq<nat>, sizes: seq<nat>): nat {
    if batch == [] then 0
    else Weight(batch[..|batch| - 1], sizes) + SizeOf(sizes, batch[|batch| - 1])
  }

  /** Any way to cut tests 1..n, in order, into batches of total size at most `limit`. */
  ghost predicate IsSplit(batches: seq<seq<nat>>, sizes: seq<nat>, limit: nat) {
    && Concat(batches) == Range(0, |sizes|)
    && (forall j :: 0 <= j < |batches| ==> Weight(batches[j], sizes) <= limit)
  }

  /** The cut the uploader makes: no batch could also have taken the first test of the next one. */
  ghost predicate IsGreedySplit(batches: seq<seq<nat>>, sizes: seq<nat>, limit: nat) {
    && |batches| >= 1
    && IsSplit(batches, sizes, limit)
    && (sizes != [] ==> batches[0] != [])
    && (forall j :: 1 <= j < |batches| ==> batches[j] != [] && Overflows(batches, sizes, limit, j))
  }

  /** Batch j - 1 has no room for the first test of batch j. */
  ghost predicate Overflows(batches: seq<seq<nat>>, sizes: seq<nat>, limit: nat, j: nat)
    requires 1 <= j < |batches| && batches[j] != []
  {
    Weight(batches[j - 1], sizes) + SizeOf(sizes, batches[j][0]) > limit
  }

  /** The limit in bytes: the configured size, or the two texts of the largest test if that is more. */
  ghost predicate IsByteLimit(limit: nat, inputTests: seq<string>, outputTests: seq<string>, configured: nat)
    requires |inputTests| <= |outputTests|
  {
    && configured <= limit
    && (forall i :: 0 <= i < |inputTests| ==> |inputTests[i]| + |outputTests[i]| <= limit)
    && (limit == configured || exists i :: 0 <= i < |inputTests| && limit == |inputTests[i]| + |outputTests[i]|)
  }

  /** What the cut means for the texts: see `TextsFit`. */
  ghost predicate CutsTexts(batches: seq<seq<nat>>, inputTests: seq<string>, outputTests: seq<string>, limit: nat)
    requires |inputTests| <= |outputTests|
  {
    && Concat(batches) == Range(0, |inputTests|)
    && forall j :: 0 <= j < |batches| ==> TextsFit(batches, inputTests, outputTests, limit, j)
  }

  /** The texts of batch j are within the limit; with those of the next test they would not be. */
  ghost predicate TextsFit(batches: seq<seq<nat>>, inputTests: seq<string>, outputTests: seq<string>, limit: nat,
                           j: nat)
    requires |inputTests| <= |outputTests| && j < |batches|
  {
    var lo, hi := Cut(batches, j), Cut(batches, j + 1);
    && lo <= hi <= |inputTests|
    && batches[j] == Range(lo, hi)
    && |Concat(inputTests[lo..hi])| + |Concat(outputTests[lo..hi])| <= limit
    && (j + 1 < |batches| ==>
          hi < |inputTests| && |Concat(inputTests[lo..hi + 1])| + |Concat(outputTests[lo..hi + 1])| > limit)
  }

  method SplitIntoBatches(inputTests: seq<string>, outputTests: seq<string>, batchSize: nat)
    returns (batches: seq<seq<nat>>)
    requires |inputTests| <= |outputTests|
    ensures var sizes := Sizes(inputTests, outputTests);
            && IsGreedySplit(batches, sizes, Limit(sizes, batchSize))
            && IsByteLimit(Limit(sizes, batchSize), inputTests, outputTests, batchSize)
            && CutsTexts(batches, inputTests, outputTests, Limit(sizes, batchSize))
  {
    hide Filled, Weight, Concat, IsGreedySplit, IsByteLimit, CutsTexts;
    ghost var sizes := Sizes(inputTests, outputTests);
    var testsCount := |inputTests|;
    var limit := batchSize;
    for i := 0 to testsCount
      invariant limit == Limit(sizes[..i], batchSize)
    {
      var testSize := |inputTests[i]| + |outputTests[i]|;
      assert sizes[..i + 1][..i] == sizes[..i];
      if limit < testSize {
        limit := testSize;
      }
    }
    assert sizes[..testsCount] == sizes;
    LimitMeaning(sizes, batchSize);

    var accumSize := 0;
    batches := [[]];
    FilledStart(sizes, limit);
    for i := 0 to testsCount
      invariant batches != [] && Filled(batches, sizes, limit, i)
      invariant accumSize == Weight(batches[|batches| - 1], sizes)
    {
      var testSize := |inputTests[i]| + |outputTests[i]|;
      if accumSize + testSize > limit {
        FilledOpen(batches, sizes, limit, i);
        OpenThenPush(batches, i + 1);
        batches := batches + [[]];
        accumSize := 0;
      } else {
        FilledPush(batches, sizes, limit, i);
      }
      batches := batches[|batches| - 1 := batches[|batches| - 1] + [i + 1]];
      accumSize := accumSize + testSize;
    }
    FilledDone(batches, sizes, limit);
    LimitIsBytes(inputTests, outputTests, batchSize);
    GreedyCutsTexts(batches, inputTests, outputTests, batchSize);
  }

  lemma OpenThenPush(batches: seq<seq<nat>>, id: nat)
    ensures var opening: seq<seq<nat>> := batches + [[]];
            opening[|batches| := opening[|batches|] + [id]] == batches + [[id]]
  {
    var opening: seq<seq<nat>> := batches + [[]];
    assert opening[|batches|] + [id] == [id];
  }

  lemma FilledStart(sizes: seq<nat>, limit: nat)
    ensures Filled([[]], sizes, limit, 0) && Weight([], sizes) == 0
  {
    assert Concat<nat>([[]]) == Concat<nat>([[]][..0]) + [];
  }

  lemma FilledDone(batches: seq<seq<nat>>, sizes: seq<nat>, limit: nat)
    requires Filled(batches, sizes, limit, |sizes|)
    ensures IsGreedySplit(batches, sizes, limit)
  {
  }

  /** The batches after the first `i` tests. */
  ghost predicate Filled(batches: seq<seq<nat>>, sizes: seq<nat>, limit: nat, i: nat) {
    && |batches| >= 1
    && Concat(batches) == Range(0, i)
    && (if i == 0 then batches == [[]] else batches[0] != [])
    && (forall j :: 0 <= j < |batches| ==> Weight(batches[j], sizes) <= limit)
    && NextDontFit(batches, sizes, limit)
  }

  ghost predicate NextDontFit(batches: seq<seq<nat>>, sizes: seq<nat>, limit: nat) {
    forall j :: 1 <= j < |batches| ==> batches[j] != [] && Overflows(batches, sizes, limit, j)
  }

  lemma FilledOpen(batches: seq<seq<nat>>, sizes: seq<nat>, limit: nat, i: nat)
    requires Filled(batches, sizes, limit, i) && i < |sizes| && sizes[i] <= limit
    requires Weight(batches[|batches| - 1], sizes) + sizes[i] > limit
    ensures Filled(batches + [[i + 1]], sizes, limit, i + 1)
    ensures Weight([i + 1], sizes) == sizes[i]
  {
    hide Concat, Weight, NextDontFit;
    WeightNone(sizes);
    WeightOne(i + 1, sizes);
    ConcatPush<nat>(batches, [i + 1]);
    assert Range(0, i) + [i + 1] == Range(0, i + 1);
    OverflowsOpen(batches, sizes, limit, i + 1);
  }

  lemma OverflowsOpen(batches: seq<seq<nat>>, sizes: seq<nat>, limit: nat, id: nat)
    requires batches != [] && NextDontFit(batches, sizes, limit)
    requires Weight(batches[|batches| - 1], sizes) + SizeOf(sizes, id) > limit
    ensures NextDontFit(batches + [[id]], sizes, limit)
  {
    hide Weight, SizeOf;
    var grown := batches + [[id]];
    forall j | 1 <= j < |grown| ensures grown[j] != [] && Overflows(grown, sizes, limit, j) {
      if j < |batches| {
        assert Overflows(batches, sizes, limit, j);
        assert grown[j] == batches[j] && grown[j - 1] == batches[j - 1];
      } else {
        assert grown[j] == [id] && grown[j - 1] == batches[|batches| - 1];
      }
    }
  }

  lemma FilledPush(batches: seq<seq<nat>>, sizes: seq<nat>, limit: nat, i: nat)
    requires Filled(batches, sizes, limit, i) && i < |sizes|
    requires Weight(batches[|batches| - 1], sizes) + sizes[i] <= limit
    ensures var last := batches[|batches| - 1];
            && Filled(batches[|batches| - 1 := last + [i + 1]], sizes, limit, i + 1)
            && Weight(last + [i + 1], sizes) == Weight(last, sizes) + sizes[i]
  {
    hide Concat, Weight, NextDontFit;
    var n, last := |batches| - 1, batches[|batches| - 1];
    var pushed: seq<seq<nat>> := batches[n := last + [i + 1]];
    WeightAppend(last, [i + 1], sizes);
    WeightOne(i + 1, sizes);
    ConcatExtendLast<nat>(batches, [i + 1]);
    assert Range(0, i) + [i + 1] == Range(0, i + 1);
    assert pushed[n] == last + [i + 1];
    assert forall j :: 0 <= j < n ==> pushed[j] == batches[j];
    OverflowsPushed(batches, sizes, limit, i + 1);
  }

  lemma OverflowsPushed(batches: seq<seq<nat>>, sizes: seq<nat>, limit: nat, id: nat)
    requires batches != [] && NextDontFit(batches, sizes, limit)
    ensures NextDontFit(batches[|batches| - 1 := batches[|batches| - 1] + [id]], sizes, limit)
  {
    hide Weight, Overflows;
    var pushed := batches[|batches| - 1 := batches[|batches| - 1] + [id]];
    forall j | 1 <= j < |pushed| ensures pushed[j] != [] && Overflows(pushed, sizes, limit, j) {
      OverflowsPush(batches, sizes, limit, j, id);
    }
  }

  lemma WeightNone(sizes: seq<nat>)
    ensures Weight([], sizes) == 0
  {
  }

  lemma OverflowsPush(batches: seq<seq<nat>>, sizes: seq<nat>, limit: nat, j: nat, id: nat)
    requires 1 <= j < |batches| && batches[j] != [] && Overflows(batches, sizes, limit, j)
    ensures var pushed := batches[|batches| - 1 := batches[|batches| - 1] + [id]];
            pushed[j] != [] && Overflows(pushed, sizes, limit, j)
  {
  }

  lemma WeightOne(id: nat, sizes: seq<nat>)
    ensures Weight([id], sizes) == SizeOf(sizes, id)
  {
    assert [id][..0] == [];
  }

  lemma {:induction false} WeightAppend(a: seq<nat>, b: seq<nat>, sizes: seq<nat>)
    ensures Weight(a + b, sizes) == Weight(a, sizes) + Weight(b, sizes)
  {
    if b == [] {
      assert a + b == a;
    } else {
      assert (a + b)[..|a + b| - 1] == a + b[..|b| - 1];
      WeightAppend(a, b[..|b| - 1], sizes);
    }
  }

  // ----- Batches are runs of consecutive ids

  /** How many tests the first `j` batches cover. */
  function Cut(batches: seq<seq<nat>>, j: nat): nat
    requires j <= |batches|
  {
    |Concat(batches[..j])|
  }

  lemma BatchIsRange(batches: seq<seq<nat>>, n: nat, j: nat)
    requires Concat(batches) == Range(0, n) && j < |batches|
    ensures Cut(batches, j) <= Cut(batches, j + 1) <= n
    ensures batches[j] == Range(Cut(batches, j), Cut(batches, j + 1))
  {
    hide Concat;
    ConcatSlice(batches, j);
  }

  lemma CutEnds(batches: seq<seq<nat>>, n: nat)
    requires Concat(batches) == Range(0, n)
    ensures Cut(batches, 0) == 0 && Cut(batches, |batches|) == n
  {
    assert batches[..|batches|] == batches;
  }

  /**
   Split-to-fetch agreement: with at least one test every batch of the uploader's cut is a non-empty
   run of consecutive ids among 1..n, so its first and last id give back its length and members.
   */
  lemma BatchFromEnds(batches: seq<seq<nat>>, sizes: seq<nat>, limit: nat, j: nat)
    requires IsGreedySplit(batches, sizes, limit) && sizes != [] && j < |batches|
    ensures batches[j] != []
    ensures var front, back := batches[j][0], batches[j][|batches[j]| - 1];
            && front == Cut(batches, j) + 1 && back == Cut(batches, j + 1)
            && 1 <= front <= back <= |sizes|
            && back - front + 1 == |batches[j]|
            && batches[j] == Range(front - 1, back)
  {
    BatchIsRange(batches, |sizes|, j);
  }

  // ----- Optimality among in-order splits

  lemma WeightRange(lo: nat, mid: nat, hi: nat, sizes: seq<nat>)
    requires lo <= mid <= hi
    ensures Weight(Range(lo, hi), sizes) == Weight(Range(lo, mid), sizes) + Weight(Range(mid, hi), sizes)
  {
    assert Range(lo, hi) == Range(lo, mid) + Range(mid, hi);
    WeightAppend(Range(lo, mid), Range(mid, hi), sizes);
  }

  /** A run that contains another weighs at least as much. */
  lemma WiderWeighsMore(lo: nat, hi: nat, lo': nat, hi': nat, sizes: seq<nat>)
    requires lo <= lo' <= hi' <= hi
    ensures Weight(Range(lo', hi'), sizes) <= Weight(Range(lo, hi), sizes)
  {
    WeightRange(lo, lo', hi, sizes);
    WeightRange(lo', hi', hi, sizes);
  }

  lemma NextOverflows(batches: seq<seq<nat>>, sizes: seq<nat>, limit: nat, j: nat)
    requires IsGreedySplit(batches, sizes, limit) && 1 <= j < |batches|
    ensures Concat(batches) == Range(0, |sizes|)
    ensures batches[j] != [] && Weight(batches[j - 1], sizes) + SizeOf(sizes, batches[j][0]) > limit
  {
    assert Overflows(batches, sizes, limit, j);
  }

  lemma OverflowRange(batches: seq<seq<nat>>, sizes: seq<nat>, limit: nat, j: nat)
    requires IsGreedySplit(batches, sizes, limit) && j + 1 < |batches|
    ensures Cut(batches, j) <= Cut(batches, j + 1) < |sizes|
    ensures Weight(Range(Cut(batches, j), Cut(batches, j + 1) + 1), sizes) > limit
  {
    hide Concat, Weight, Cut, IsGreedySplit, SizeOf;
    NextOverflows(batches, sizes, limit, j + 1);
    BatchIsRange(batches, |sizes|, j);
    BatchIsRange(batches, |sizes|, j + 1);
    var lo, hi := Cut(batches, j), Cut(batches, j + 1);
    WeightRange(lo, hi, hi + 1, sizes);
    assert Range(hi, hi + 1) == [hi + 1];
    WeightOne(hi + 1, sizes);
  }

  lemma GreedyCovers(g: seq<seq<nat>>, sizes: seq<nat>, limit: nat)
    requires IsGreedySplit(g, sizes, limit)
    ensures g != [] && Concat(g) == Range(0, |sizes|)
  {
  }

  /** If the greedy cut is ahead before its batch j, which is not its last, it is ahead after it. */
  lemma StaysAheadStep(g: seq<seq<nat>>, rival: seq<seq<nat>>, sizes: seq<nat>, limit: nat, j: nat)
    requires IsGreedySplit(g, sizes, limit) && IsSplit(rival, sizes, limit)
    requires j < |rival| && j + 1 < |g| && Cut(rival, j) <= Cut(g, j)
    ensures Cut(rival, j + 1) <= Cut(g, j + 1)
  {
    hide Cut, Concat, Weight, IsGreedySplit;
    BatchIsRange(rival, |sizes|, j);
    OverflowRange(g, sizes, limit, j);
    if Cut(rival, j + 1) > Cut(g, j + 1) {
      WiderWeighsMore(Cut(rival, j), Cut(rival, j + 1), Cut(g, j), Cut(g, j + 1) + 1, sizes);
    }
  }

  /** The first j greedy batches cover at least as many tests as the first j of any in-order split. */
  lemma {:induction false} GreedyStaysAhead(g: seq<seq<nat>>, rival: seq<seq<nat>>, sizes: seq<nat>, limit: nat, j: nat)
    requires IsGreedySplit(g, sizes, limit) && IsSplit(rival, sizes, limit) && j <= |rival|
    ensures Cut(rival, j) <= if j <= |g| then Cut(g, j) else |sizes|
  {
    hide Cut, Concat, Weight, IsGreedySplit;
    GreedyCovers(g, sizes, limit);
    CutEnds(g, |sizes|);
    CutEnds(rival, |sizes|);
    if j > 0 {
      BatchIsRange(rival, |sizes|, j - 1);
      if j < |g| {
        GreedyStaysAhead(g, rival, sizes, limit, j - 1);
        StaysAheadStep(g, rival, sizes, limit, j - 1);
      }
    }
  }

  /** So no in-order split within the limit uses fewer batches. */
  lemma GreedyIsMinimal(g: seq<seq<nat>>, rival: seq<seq<nat>>, sizes: seq<nat>, limit: nat)
    requires IsGreedySplit(g, sizes, limit) && IsSplit(rival, sizes, limit) && sizes != []
    ensures |g| <= |rival|
  {
    GreedyStaysAhead(g, rival, sizes, limit, |rival|);
    CutEnds(rival, |sizes|);
    if |rival| < |g| {
      BatchFromEnds(g, sizes, limit, |rival|);
    }
  }

  /** Raising the configured batch size never increases the number of batches. */
  lemma LargerSizeFewerBatches(g: seq<seq<nat>>, g': seq<seq<nat>>, sizes: seq<nat>, configured: nat, larger: nat)
    requires sizes != [] && configured <= larger
    requires IsGreedySplit(g, sizes, Limit(sizes, configured))
    requires IsGreedySplit(g', sizes, Limit(sizes, larger))
    ensures |g'| <= |g|
  {
    LimitMonotone(sizes, configured, larger);
    GreedyIsMinimal(g', g, sizes, Limit(sizes, larger));
  }

  /** The greedy conditions leave no choice: there is one such cut. */
  lemma GreedyIsUnique(a: seq<seq<nat>>, b: seq<seq<nat>>, sizes: seq<nat>, limit: nat)
    requires IsGreedySplit(a, sizes, limit) && IsGreedySplit(b, sizes, limit)
    ensures a == b
  {
    hide Concat, Weight, Cut;
    if sizes == [] {
      ConcatEmpty(a, |a| - 1);
      ConcatEmpty(b, |b| - 1);
    } else {
      GreedyIsMinimal(a, b, sizes, limit);
      GreedyIsMinimal(b, a, sizes, limit);
      forall j | 0 <= j < |a| ensures a[j] == b[j] {
        SameBatch(a, b, sizes, limit, j);
      }
    }
  }

  lemma SameBatch(a: seq<seq<nat>>, b: seq<seq<nat>>, sizes: seq<nat>, limit: nat, j: nat)
    requires IsGreedySplit(a, sizes, limit) && IsGreedySplit(b, sizes, limit) && j < |a| == |b|
    ensures a[j] == b[j]
  {
    hide Cut, Concat, Weight;
    GreedyStaysAhead(a, b, sizes, limit, j);
    GreedyStaysAhead(b, a, sizes, limit, j);
    GreedyStaysAhead(a, b, sizes, limit, j + 1);
    GreedyStaysAhead(b, a, sizes, limit, j + 1);
    BatchIsRange(a, |sizes|, j);
    BatchIsRange(b, |sizes|, j);
  }

  lemma ConcatEmpty(batches: seq<seq<nat>>, j: nat)
    requires Concat(batches) == [] && j < |batches|
    ensures batches[j] == []
  {
    ConcatSlice(batches, j);
  }

  /** With no tests the uploader's cut is one empty batch; with any test it has no empty batch. */
  lemma EmptyBatchIff(g: seq<seq<nat>>, sizes: seq<nat>, limit: nat)
    requires IsGreedySplit(g, sizes, limit)
    ensures (exists j :: 0 <= j < |g| && g[j] == []) <==> sizes == []
    ensures sizes == [] ==> g == [[]]
  {
    if sizes == [] {
      ConcatEmpty(g, |g| - 1);
      assert g[0] == [];
    } else {
      forall j | 0 <= j < |g| ensures g[j] != [] {
        BatchFromEnds(g, sizes, limit, j);
      }
    }
  }

  // ----- Weights are bytes

  lemma LimitIsBytes(inputTests: seq<string>, outputTests: seq<string>, configured: nat)
    requires |inputTests| <= |outputTests|
    ensures IsByteLimit(Limit(Sizes(inputTests, outputTests), configured), inputTests, outputTests, configured)
  {
    var sizes := Sizes(inputTests, outputTests);
    LimitMeaning(sizes, configured);
    assert forall i :: 0 <= i < |sizes| ==> sizes[i] == |inputTests[i]| + |outputTests[i]|;
    forall i | 0 <= i < |inputTests| ensures |inputTests[i]| + |outputTests[i]| <= Limit(sizes, configured) {
      assert sizes[i] <= Limit(sizes, configured);
    }
    if Limit(sizes, configured) != configured {
      var i :| 0 <= i < |sizes| && sizes[i] == Limit(sizes, configured);
      assert Limit(sizes, configured) == |inputTests[i]| + |outputTests[i]|;
    }
  }

  /** A run of tests weighs what its texts hold together. */
  lemma {:induction false} WeightIsBytes(inputTests: seq<string>, outputTests: seq<string>, lo: nat, hi: nat)
    requires |inputTests| <= |outputTests| && lo <= hi <= |inputTests|
    ensures Weight(Range(lo, hi), Sizes(inputTests, outputTests)) ==
            |Concat(inputTests[lo..hi])| + |Concat(outputTests[lo..hi])|
  {
    if lo < hi {
      WeightIsBytes(inputTests, outputTests, lo, hi - 1);
      assert Range(lo, hi)[..hi - 1 - lo] == Range(lo, hi - 1);
      assert inputTests[lo..hi][..hi - 1 - lo] == inputTests[lo..hi - 1];
      assert outputTests[lo..hi][..hi - 1 - lo] == outputTests[lo..hi - 1];
    }
  }

  lemma GreedyCutsTexts(batches: seq<seq<nat>>, inputTests: seq<string>, outputTests: seq<string>, configured: nat)
    requires |inputTests| <= |outputTests|
    requires var sizes := Sizes(inputTests, outputTests); IsGreedySplit(batches, sizes, Limit(sizes, configured))
    ensures CutsTexts(batches, inputTests, outputTests, Limit(Sizes(inputTests, outputTests), configured))
  {
    hide Concat, Weight, Cut, Limit, TextsFit;
    var sizes := Sizes(inputTests, outputTests);
    forall j | 0 <= j < |batches|
      ensures TextsFit(batches, inputTests, outputTests, Limit(sizes, configured), j)
    {
      OneFits(batches, inputTests, outputTests, Limit(sizes, configured), j);
    }
  }

  lemma OneFits(batches: seq<seq<nat>>, inputTests: seq<string>, outputTests: seq<string>, limit: nat, j: nat)
    requires |inputTests| <= |outputTests| && j < |batches|
    requires IsGreedySplit(batches, Sizes(inputTests, outputTests), limit)
    ensures TextsFit(batches, inputTests, outputTests, limit, j)
  {
    hide Concat, Weight, Cut, Range;
    var sizes := Sizes(inputTests, outputTests);
    BatchIsRange(batches, |sizes|, j);
    var lo, hi := Cut(batches, j), Cut(batches, j + 1);
    WeightIsBytes(inputTests, outputTests, lo, hi);
    if j + 1 < |batches| {
      OverflowRange(batches, sizes, limit, j);
      WeightIsBytes(inputTests, outputTests, lo, hi + 1);
    }
  }
}

/**
 The cache against every other policy: on Erase-free read-through traffic from an empty cache of
 capacity k, its misses are within a constant factor of those of any demand-fetching policy, even
 one that knows the whole request sequence in advance.
 */
module Competitive {
  import opened Sequences
  import opened LruRuns

  /**
   What a rival holding at most `h` keys did: `trace[i]` is its key set before request i. It starts
   empty, must hold a key once requested, brings in nothing else, and drops keys as it likes.
   */
  ghost predicate DemandPolicy<K(!new)>(ops: seq<Op<K>>, trace: seq<set<K>>, h: nat) {
    && |trace| == |ops| + 1
    && trace[0] == {}
    && (forall i :: 0 <= i < |trace| ==> |trace[i]| <= h)
    && (forall i :: 0 <= i < |ops| ==> ops[i].key in trace[i + 1] && trace[i + 1] <= trace[i] + {ops[i].key})
  }

  /** The rival's misses on the first `n` requests. */
  ghost function RivalMisses<K>(ops: seq<Op<K>>, trace: seq<set<K>>, n: nat): nat
    requires n <= |ops| <= |trace|
  {
    if n == 0 then 0
    else RivalMisses(ops, trace, n - 1) + if ops[n - 1].key in trace[n - 1] then 0 else 1
  }

  /** The cache's own key sets along a run. */
  ghost function LruTrace<K(!new)>(capacity: nat, ops: seq<Op<K>>): seq<set<K>> {
    seq(|ops| + 1, i requires 0 <= i <= |ops| => Elements(Run([], capacity, ops[..i])))
  }

  lemma {:induction false} LruTraceMisses<K(!new)>(capacity: nat, ops: seq<Op<K>>, n: nat)
    requires EraseFree(ops) && n <= |ops|
    ensures RivalMisses(ops, LruTrace(capacity, ops), n) == Misses([], capacity, ops[..n])
  {
    if n > 0 {
      LruTraceMisses(capacity, ops, n - 1);
      assert ops[..n][..n - 1] == ops[..n - 1];
    }
  }

  /** The cache is itself such a policy, so the bounds below compare like with like. */
  lemma LruIsDemandPolicy<K(!new)>(capacity: nat, ops: seq<Op<K>>)
    requires EraseFree(ops) && capacity >= 1
    ensures DemandPolicy(ops, LruTrace(capacity, ops), capacity)
    ensures RivalMisses(ops, LruTrace(capacity, ops), |ops|) == Misses([], capacity, ops)
  {
    var trace := LruTrace(capacity, ops);
    forall i | 0 <= i < |trace| ensures |trace[i]| <= capacity {
      RunState([], capacity, ops[..i]);
      DistinctCardinality(Run([], capacity, ops[..i]));
    }
    forall i | 0 <= i < |ops| ensures ops[i].key in trace[i + 1] && trace[i + 1] <= trace[i] + {ops[i].key} {
      var before := Run([], capacity, ops[..i]);
      assert ops[..i + 1][..i] == ops[..i];
      WithoutElements(before, ops[i].key);
      assert Run([], capacity, ops[..i + 1])[0] == ops[i].key;
    }
    LruTraceMisses(capacity, ops, |ops|);
    assert ops[..|ops|] == ops;
  }

  // ----- Phases

  /** A phase is a stretch with at most `capacity` distinct keys; `full` phases precede the current one. */
  datatype Phase = Phase(start: nat, full: nat)

  ghost function PhaseOf<K>(ops: seq<Op<K>>, capacity: nat): (p: Phase)
    requires ops != []
    ensures p.start < |ops|
  {
    if |ops| == 1 then Phase(0, 0)
    else
      var p := PhaseOf(ops[..|ops| - 1], capacity);
      if |Touched(ops[p.start..])| <= capacity then p else Phase(|ops| - 1, p.full + 1)
  }

  lemma PhaseSize<K(!new)>(ops: seq<Op<K>>, capacity: nat)
    requires ops != [] && capacity >= 1
    ensures |Touched(ops[PhaseOf(ops, capacity).start..])| <= capacity
  {
    if |ops| == 1 || PhaseOf(ops, capacity).start == |ops| - 1 {
      var p := PhaseOf(ops, capacity);
      assert ops[p.start..] == [ops[|ops| - 1]];
      assert Touched(ops[p.start..]) == {ops[|ops| - 1].key};
    }
  }

  /** How the last request extends, or ends, the phase before it. */
  lemma PhaseStep<K(!new)>(ops: seq<Op<K>>, capacity: nat)
    requires |ops| >= 2 && capacity >= 1
    ensures var before, p := ops[..|ops| - 1], PhaseOf(ops[..|ops| - 1], capacity);
            var was, x := Touched(before[p.start..]), ops[|ops| - 1].key;
            && Touched(ops[p.start..]) == was + {x}
            && |was| <= capacity
            && ((PhaseOf(ops, capacity) == p && |was + {x}| <= capacity)
                || (PhaseOf(ops, capacity) == Phase(|ops| - 1, p.full + 1)
                    && x !in was && |was| == capacity && Touched(ops[|ops| - 1..]) == {x}))
  {
    var before := ops[..|ops| - 1];
    var p := PhaseOf(before, capacity);
    PhaseSize(before, capacity);
    assert ops[p.start..][..|ops| - 1 - p.start] == before[p.start..];
    var was, x := Touched(before[p.start..]), ops[|ops| - 1].key;
    if x in was {
      assert was + {x} == was;
    }
    assert ops[|ops| - 1..] == [ops[|ops| - 1]];
  }

  lemma {:induction false} RunAppend<K>(s: seq<K>, capacity: nat, a: seq<Op<K>>, b: seq<Op<K>>)
    ensures Run(s, capacity, a + b) == Run(Run(s, capacity, a), capacity, b)
  {
    if b == [] {
      assert a + b == a;
    } else {
      assert (a + b)[..|a + b| - 1] == a + b[..|b| - 1];
      RunAppend(s, capacity, a, b[..|b| - 1]);
    }
  }

  /** Everything the current phase touched is cached, so the next miss is on a key new to it. */
  lemma PhaseCached<K(!new)>(ops: seq<Op<K>>, capacity: nat)
    requires ops != [] && capacity >= 1 && EraseFree(ops)
    ensures forall k :: k in Touched(ops[PhaseOf(ops, capacity).start..]) ==> k in Run([], capacity, ops)
  {
    var start := PhaseOf(ops, capacity).start;
    PhaseSize(ops, capacity);
    assert ops == ops[..start] + ops[start..];
    RunAppend([], capacity, ops[..start], ops[start..]);
    RunState([], capacity, ops[..start]);
    WindowStays(Run([], capacity, ops[..start]), capacity, ops[start..]);
  }

  /** At most `capacity` misses in each full phase, and one per distinct key in the current one. */
  lemma {:induction false} LruUpper<K(!new)>(ops: seq<Op<K>>, capacity: nat)
    requires ops != [] && capacity >= 1 && EraseFree(ops)
    ensures var p := PhaseOf(ops, capacity);
            Misses([], capacity, ops) <= p.full * capacity + |Touched(ops[p.start..])|
  {
    if |ops| == 1 {
      LruFirst(ops, capacity);
    } else {
      LruUpper(ops[..|ops| - 1], capacity);
      LruNext(ops, capacity);
    }
  }

  lemma LruNext<K(!new)>(ops: seq<Op<K>>, capacity: nat)
    requires |ops| >= 2 && capacity >= 1 && EraseFree(ops)
    requires var before := ops[..|ops| - 1];
             var p := PhaseOf(before, capacity);
             Misses([], capacity, before) <= p.full * capacity + |Touched(before[p.start..])|
    ensures var p := PhaseOf(ops, capacity);
            Misses([], capacity, ops) <= p.full * capacity + |Touched(ops[p.start..])|
  {
    hide PhaseOf, Misses, Touched;
    var before := ops[..|ops| - 1];
    var p := PhaseOf(before, capacity);
    PhaseStep(ops, capacity);
    MissIsNew(ops, capacity);
    AddOne(Touched(before[p.start..]), ops[|ops| - 1].key);
    MulNext(p.full, capacity);
  }

  lemma AddOne<T>(a: set<T>, x: T)
    ensures |a + {x}| == |a| + if x in a then 0 else 1
  {
    if x in a {
      assert a + {x} == a;
    }
  }

  lemma MulNext(a: nat, b: nat)
    ensures (a + 1) * b == a * b + b
  {
  }

  lemma MissIsNew<K(!new)>(ops: seq<Op<K>>, capacity: nat)
    requires |ops| >= 2 && capacity >= 1 && EraseFree(ops)
    ensures var before := ops[..|ops| - 1];
            Misses([], capacity, ops) <= Misses([], capacity, before)
              + if ops[|ops| - 1].key in Touched(before[PhaseOf(before, capacity).start..]) then 0 else 1
  {
    hide PhaseOf, Run, Touched;
    PhaseCached(ops[..|ops| - 1], capacity);
  }

  lemma LruFirst<K(!new)>(ops: seq<Op<K>>, capacity: nat)
    requires |ops| == 1 && EraseFree(ops)
    ensures Misses([], capacity, ops) == 1 == |Touched(ops[PhaseOf(ops, capacity).start..])|
  {
    assert Misses([], capacity, ops[..0]) == 0;
    assert Touched(ops[0..]) == {ops[0].key};
  }

  /** What a rival must have missed by the first request of the phase after `full` full ones. */
  ghost function Floor(k: nat, h: nat, full: nat): int {
    if full == 0 then 1 else if full == 1 then k + 1 else Floor(k, h, full - 1) + (k - h + 1)
  }

  /** The rival's keys and misses on the first `n` requests, told from the current phase's start. */
  ghost predicate RivalLower<K(!new)>(ops: seq<Op<K>>, trace: seq<set<K>>, k: nat, h: nat, n: nat)
    requires 1 <= n <= |ops| < |trace|
  {
    var p := PhaseOf(ops[..n], k);
    && Since(ops, trace, p.start, n)
    && RivalMisses(ops, trace, p.start + 1) >= Floor(k, h, p.full)
    && (p.full == 0 ==> trace[p.start + 1] == {ops[0].key} && p.start == 0)
  }

  /** Since request `start`, what the rival missed covers every key it did not hold right after it. */
  ghost predicate Since<K(!new)>(ops: seq<Op<K>>, trace: seq<set<K>>, start: nat, n: nat)
    requires start < n <= |ops| < |trace|
  {
    var touched, held := Touched(ops[start..n]), trace[start + 1];
    && trace[n] <= held + touched
    && RivalMisses(ops, trace, n) >= RivalMisses(ops, trace, start + 1) + |touched - held|
  }

  lemma SinceFirst<K(!new)>(ops: seq<Op<K>>, trace: seq<set<K>>, start: nat, h: nat)
    requires DemandPolicy(ops, trace, h) && start < |ops|
    ensures Since(ops, trace, start, start + 1)
  {
    assert ops[start..start + 1] == [ops[start]];
    assert Touched(ops[start..start + 1]) == {ops[start].key};
    assert {ops[start].key} - trace[start + 1] == {};
  }

  lemma SinceStep<K(!new)>(ops: seq<Op<K>>, trace: seq<set<K>>, start: nat, n: nat, h: nat)
    requires DemandPolicy(ops, trace, h) && start < n < |ops|
    requires Since(ops, trace, start, n)
    ensures Since(ops, trace, start, n + 1)
    ensures RivalMisses(ops, trace, n + 1)
            >= RivalMisses(ops, trace, start + 1) + |Touched(ops[start..n + 1]) - trace[start + 1]|
  {
    hide Touched, RivalMisses, DemandPolicy;
    HeldBound(ops, trace, n, h);
    var held, touched, x := trace[start + 1], Touched(ops[start..n]), ops[n].key;
    RequestStep(ops, trace, n, h);
    TouchedSlice(ops, start, n);
    DifferenceStep(touched, held, x);
  }

  lemma RequestStep<K(!new)>(ops: seq<Op<K>>, trace: seq<set<K>>, n: nat, h: nat)
    requires DemandPolicy(ops, trace, h) && n < |ops|
    ensures trace[n + 1] <= trace[n] + {ops[n].key}
    ensures RivalMisses(ops, trace, n + 1) ==
            RivalMisses(ops, trace, n) + if ops[n].key in trace[n] then 0 else 1
  {
  }

  lemma TouchedSlice<K(!new)>(ops: seq<Op<K>>, start: nat, n: nat)
    requires start <= n < |ops|
    ensures Touched(ops[start..n + 1]) == Touched(ops[start..n]) + {ops[n].key}
  {
    assert ops[start..n + 1][..n - start] == ops[start..n];
  }

  lemma DifferenceStep<T>(a: set<T>, b: set<T>, x: T)
    ensures |(a + {x}) - b| == |a - b| + if x in a || x in b then 0 else 1
  {
    if x in a || x in b {
      assert (a + {x}) - b == a - b;
    } else {
      assert (a + {x}) - b == (a - b) + {x};
    }
  }

  lemma DifferenceBound<T>(a: set<T>, b: set<T>)
    ensures |a - b| >= |a| - |b|
  {
    assert a == (a - b) + (a * b);
    assert b == (a * b) + (b - a);
  }

  lemma {:induction false} RivalPhases<K(!new)>(ops: seq<Op<K>>, trace: seq<set<K>>, k: nat, h: nat, n: nat)
    requires DemandPolicy(ops, trace, h) && 1 <= n <= |ops| && 1 <= h <= k
    ensures RivalLower(ops, trace, k, h, n)
  {
    hide DemandPolicy, RivalLower;
    HeldBound(ops, trace, 0, h);
    if n == 1 {
      RivalFirst(ops, trace, k, h);
    } else {
      RivalPhases(ops, trace, k, h, n - 1);
      PhaseNext(ops, trace, k, h, n - 1);
    }
  }

  lemma RivalFirst<K(!new)>(ops: seq<Op<K>>, trace: seq<set<K>>, k: nat, h: nat)
    requires DemandPolicy(ops, trace, h) && ops != []
    ensures RivalLower(ops, trace, k, h, 1)
  {
    SinceFirst(ops, trace, 0, h);
    assert RivalMisses(ops, trace, 0) == 0;
    assert trace[1] == {ops[0].key};
  }

  lemma PhaseNext<K(!new)>(ops: seq<Op<K>>, trace: seq<set<K>>, k: nat, h: nat, n: nat)
    requires DemandPolicy(ops, trace, h) && 1 <= n < |ops| && 1 <= h <= k
    requires RivalLower(ops, trace, k, h, n)
    ensures RivalLower(ops, trace, k, h, n + 1)
  {
    hide PhaseOf, Touched, DemandPolicy, Since, RivalMisses;
    var p := PhaseOf(ops[..n], k);
    HeldBound(ops, trace, p.start + 1, h);
    SinceStep(ops, trace, p.start, n, h);
    SinceFirst(ops, trace, n, h);
    DifferenceBound(Touched(ops[p.start..n + 1]), trace[p.start + 1]);
    PhaseStepAt(ops, k, n);
  }

  lemma HeldBound<K(!new)>(ops: seq<Op<K>>, trace: seq<set<K>>, n: nat, h: nat)
    requires DemandPolicy(ops, trace, h) && n <= |ops|
    ensures |trace| == |ops| + 1 && |trace[n]| <= h
  {
  }

  lemma PhaseStepAt<K(!new)>(ops: seq<Op<K>>, k: nat, n: nat)
    requires 1 <= n < |ops| && k >= 1
    ensures var p, q := PhaseOf(ops[..n], k), PhaseOf(ops[..n + 1], k);
            q == p || (q == Phase(n, p.full + 1) && |Touched(ops[p.start..n + 1])| == k + 1)
  {
    hide PhaseOf, Touched;
    var all := ops[..n + 1];
    assert all[..n] == ops[..n];
    var p := PhaseOf(ops[..n], k);
    assert all[p.start..] == ops[p.start..n + 1];
    PhaseStep(all, k);
    AddOne(Touched(ops[..n][p.start..]), ops[n].key);
  }

  /** Closing the account of `full` full phases and a current one with `d` distinct keys. */
  lemma AddUp(k: int, h: int, full: int, d: int, lru: int, rival: int)
    requires 1 <= h <= k && 0 <= full && 0 <= d <= k
    requires lru <= full * k + d
    requires full == 0 ==> rival >= d
    requires full > 0 ==> rival >= k + 1 + (full - 1) * (k - h + 1) + (if d > h then d - h else 0)
    ensures (k - h + 1) * lru <= k * rival
  {
    var r := k - h + 1;
    if full == 0 {
      MulLe(r, lru, d);
      MulLe(d, r, k);
      MulLe(k, d, rival);
    } else {
      var extra := if d > h then d - h else 0;
      MulLe(r, lru, full * k + d);
      MulLe(k, k + 1 + (full - 1) * r + extra, rival);
      LastPhases(k, h, d, extra);
      FullPhases(k, r, full - 1, d, extra);
    }
  }

  lemma MulLe(a: int, b: int, c: int)
    requires 0 <= a && b <= c
    ensures a * b <= a * c
  {
  }

  lemma FullPhases(k: int, r: int, m: int, d: int, extra: int)
    requires r * (k + d) <= k * (k + 1 + extra)
    ensures r * ((m + 1) * k + d) <= k * (k + 1 + m * r + extra)
  {
    assert r * ((m + 1) * k + d) == r * (m * k) + r * (k + d);
    assert k * (k + 1 + m * r + extra) == k * (m * r) + k * (k + 1 + extra);
    assert r * (m * k) == k * (m * r);
  }

  lemma LastPhases(k: int, h: int, d: int, extra: int)
    requires 1 <= h <= k && 0 <= d <= k && extra == if d > h then d - h else 0
    ensures (k - h + 1) * (k + d) <= k * (k + 1 + extra)
  {
    var r := k - h + 1;
    FirstPhase(k, h);
    if d <= h {
      MulLe(r, k + d, k + h);
    } else {
      MulSplit(r, k + h, extra);
      MulLe(extra, r, k);
    }
    MulSplit(k, k + 1, extra);
  }

  lemma FirstPhase(k: int, h: int)
    requires 1 <= h
    ensures (k - h + 1) * (k + h) <= k * (k + 1)
  {
    assert (k - h + 1) * (k + h) == k * (k + 1) - h * (h - 1);
    MulLe(h, 0, h - 1);
  }

  lemma MulSplit(a: int, b: int, c: int)
    ensures a * (b + c) == a * b + c * a
  {
  }

  lemma {:induction false} FloorClosed(k: nat, h: nat, full: nat)
    requires full > 0
    ensures Floor(k, h, full) == k + 1 + (full - 1) * (k - h + 1)
  {
    if full > 1 {
      FloorClosed(k, h, full - 1);
      assert (full - 1) * (k - h + 1) == (full - 2) * (k - h + 1) + (k - h + 1);
    }
  }

  lemma RivalTotal<K(!new)>(ops: seq<Op<K>>, trace: seq<set<K>>, k: nat, h: nat)
    requires ops != [] && 1 <= h <= k && DemandPolicy(ops, trace, h)
    ensures var p := PhaseOf(ops, k);
            var d, rival := |Touched(ops[p.start..])|, RivalMisses(ops, trace, |ops|);
            && (p.full == 0 ==> rival >= d)
            && (p.full > 0 ==> rival >= k + 1 + (p.full - 1) * (k - h + 1) + if d > h then d - h else 0)
  {
    hide PhaseOf, Touched, DemandPolicy, RivalMisses;
    var n, p := |ops|, PhaseOf(ops, k);
    HeldBound(ops, trace, p.start + 1, h);
    RivalPhases(ops, trace, k, h, n);
    assert ops[..n] == ops;
    assert ops[p.start..n] == ops[p.start..];
    DifferenceBound(Touched(ops[p.start..]), trace[p.start + 1]);
    if p.full > 0 {
      FloorClosed(k, h, p.full);
    }
  }

  /**
   Competitive bound with resource augmentation: against any rival that holds at most h <= k keys,
   (k - h + 1) times the cache's misses are at most k times the rival's.
   */
  lemma CompetitiveAgainstSmaller<K(!new)>(ops: seq<Op<K>>, k: nat, trace: seq<set<K>>, h: nat)
    requires EraseFree(ops) && 1 <= h <= k && DemandPolicy(ops, trace, h)
    ensures (k - h + 1) * Misses([], k, ops) <= k * RivalMisses(ops, trace, |ops|)
  {
    hide PhaseOf, Touched, DemandPolicy, EraseFree;
    HeldBound(ops, trace, 0, h);
    if ops != [] {
      var p := PhaseOf(ops, k);
      LruUpper(ops, k);
      PhaseSize(ops, k);
      RivalTotal(ops, trace, k, h);
      AddUp(k, h, p.full, |Touched(ops[p.start..])|, Misses([], k, ops), RivalMisses(ops, trace, |ops|));
    }
  }

  /** Competitive bound: at most k times the misses of any rival of the same capacity k. */
  lemma CompetitiveBound<K(!new)>(ops: seq<Op<K>>, k: nat, trace: seq<set<K>>)
    requires EraseFree(ops) && k >= 1 && DemandPolicy(ops, trace, k)
    ensures Misses([], k, ops) <= k * RivalMisses(ops, trace, |ops|)
  {
    CompetitiveAgainstSmaller(ops, k, trace, k);
  }
}

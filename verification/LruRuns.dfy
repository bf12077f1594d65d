/**
 Whole runs of the cache under read-through traffic: a client asks with `Get` and, on a miss only,
 loads the value and calls `Insert`. Which keys are cached, and in which order, does not depend on
 the values, so runs are followed on key sequences.
 */
module LruRuns {
  import opened Sequences
  import opened Recency

  datatype Op<+K> = Request(key: K) | Erase(key: K)

  /** What one read-through request does to the entries; `loaded` is used on a miss only. */
  function ReadThrough<K(==), V>(s: seq<Entry<K, V>>, capacity: nat, key: K, loaded: V): seq<Entry<K, V>> {
    if Lookup(s, key).Some? then Refreshed(s, key) else Inserted(Refreshed(s, key), capacity, key, loaded)
  }

  function Without<K(==)>(s: seq<K>, key: K): seq<K> {
    if s == [] then []
    else if s[0] == key then Without(s[1..], key)
    else [s[0]] + Without(s[1..], key)
  }

  /** The keys after one operation. */
  function Step<K(==)>(s: seq<K>, capacity: nat, op: Op<K>): seq<K> {
    match op
    case Request(key) => Take([key] + Without(s, key), capacity)
    case Erase(key) => Without(s, key)
  }

  function Run<K(==)>(s: seq<K>, capacity: nat, ops: seq<Op<K>>): seq<K> {
    if ops == [] then s
    else Step(Run(s, capacity, ops[..|ops| - 1]), capacity, ops[|ops| - 1])
  }

  predicate IsMiss<K(==)>(s: seq<K>, op: Op<K>) {
    op.Request? && op.key !in s
  }

  /** How many requests of the run miss. */
  function Misses<K(==)>(s: seq<K>, capacity: nat, ops: seq<Op<K>>): nat {
    if ops == [] then 0
    else
      var before := ops[..|ops| - 1];
      Misses(s, capacity, before)
      + if IsMiss(Run(s, capacity, before), ops[|ops| - 1]) then 1 else 0
  }

  ghost predicate EraseFree<K>(ops: seq<Op<K>>) {
    forall i :: 0 <= i < |ops| ==> ops[i].Request?
  }

  /** The distinct keys of a run. */
  ghost function Touched<K>(ops: seq<Op<K>>): set<K> {
    if ops == [] then {} else Touched(ops[..|ops| - 1]) + {ops[|ops| - 1].key}
  }

  /** A cache state as every run from an empty cache leaves it. */
  ghost predicate State<K(!new)>(s: seq<K>, capacity: nat) {
    Distinct(s) && |s| <= capacity
  }

  // ----- Without, Take and prefixes

  lemma {:induction false} WithoutSplit<K>(a: seq<K>, b: seq<K>, key: K)
    ensures Without(a + b, key) == Without(a, key) + Without(b, key)
  {
    if a == [] {
      assert a + b == b;
    } else {
      assert (a + b)[1..] == a[1..] + b;
      WithoutSplit(a[1..], b, key);
    }
  }

  lemma {:induction false} WithoutAbsent<K>(s: seq<K>, key: K)
    requires key !in s
    ensures Without(s, key) == s
  {
    if s != [] {
      WithoutAbsent(s[1..], key);
    }
  }

  lemma {:induction false} WithoutElements<K(!new)>(s: seq<K>, key: K)
    ensures forall x :: x in Without(s, key) <==> x in s && x != key
  {
    if s != [] {
      WithoutElements(s[1..], key);
      assert s == [s[0]] + s[1..];
    }
  }

  lemma WithoutItself<K(!new)>(key: K)
    ensures Without([key], key) == []
  {
    assert [key][1..] == [];
  }

  lemma DistinctAround<K(!new)>(s: seq<K>, i: nat)
    requires Distinct(s) && i < |s|
    ensures s == s[..i] + ([s[i]] + s[i + 1..]) && s[i] !in s[..i] && s[i] !in s[i + 1..]
  {
  }

  /** Removing a key of a duplicate-free sequence is cutting it out at its position. */
  lemma WithoutAt<K(!new)>(s: seq<K>, i: nat)
    requires Distinct(s) && i < |s|
    ensures Without(s, s[i]) == s[..i] + s[i + 1..]
  {
    hide Without, Distinct;
    DistinctAround(s, i);
    WithoutSplit(s[..i], [s[i]] + s[i + 1..], s[i]);
    WithoutSplit([s[i]], s[i + 1..], s[i]);
    WithoutItself(s[i]);
    WithoutAbsent(s[..i], s[i]);
    WithoutAbsent(s[i + 1..], s[i]);
  }

  lemma WithoutState<K(!new)>(s: seq<K>, key: K)
    requires Distinct(s)
    ensures Distinct(Without(s, key)) && key !in Without(s, key)
    ensures |Without(s, key)| == if key in s then |s| - 1 else |s|
  {
    WithoutElements(s, key);
    if key in s {
      var i :| 0 <= i < |s| && s[i] == key;
      WithoutAt(s, i);
    } else {
      WithoutAbsent(s, key);
    }
  }

  lemma StepState<K(!new)>(s: seq<K>, capacity: nat, op: Op<K>)
    requires State(s, capacity)
    ensures State(Step(s, capacity, op), capacity)
  {
    WithoutState(s, op.key);
  }

  lemma {:induction false} RunState<K(!new)>(s: seq<K>, capacity: nat, ops: seq<Op<K>>)
    requires State(s, capacity)
    ensures State(Run(s, capacity, ops), capacity)
  {
    if ops != [] {
      var before := ops[..|ops| - 1];
      RunState(s, capacity, before);
      StepState(Run(s, capacity, before), capacity, ops[|ops| - 1]);
    }
  }

  // ----- The key view is the cache's own behaviour

  lemma {:induction false} DropWithout<K, V>(s: seq<Entry<K, V>>, key: K)
    ensures Keys(Drop(s, key)) == Without(Keys(s), key)
  {
    if s != [] {
      DropWithout(s[1..], key);
      assert Keys(s)[1..] == Keys(s[1..]);
      assert Keys([s[0]] + Drop(s[1..], key)) == [s[0].key] + Keys(Drop(s[1..], key));
    } else {
      assert Keys(s) == [];
    }
  }

  lemma HasKeyIn<K, V>(s: seq<Entry<K, V>>, key: K)
    ensures HasKey(s, key) <==> key in Keys(s)
  {
    if HasKey(s, key) {
      var i :| 0 <= i < |s| && s[i].key == key;
      assert Keys(s)[i] == key;
    }
  }

  lemma HitKeys<K, V>(s: seq<Entry<K, V>>, capacity: nat, key: K)
    requires DistinctKeys(s) && |s| <= capacity && HasKey(s, key)
    ensures Keys(Refreshed(s, key)) == Take([key] + Without(Keys(s), key), capacity)
  {
    LookupHasKey(s, key);
    DropWithout(s, key);
    DropKeepsDistinct(s, key);
    var front, rest := Entry(key, Lookup(s, key).value), Drop(s, key);
    assert Keys([front] + rest) == [key] + Keys(rest);
  }

  lemma MissKeys<K, V>(s: seq<Entry<K, V>>, capacity: nat, key: K, loaded: V)
    requires |s| <= capacity && !HasKey(s, key)
    ensures Keys(Inserted(s, capacity, key, loaded)) == Take([key] + Without(Keys(s), key), capacity)
  {
    hide HasKey, Inserted, Without;
    HasKeyIn(s, key);
    WithoutAbsent(Keys(s), key);
    InsertedSplit(s, capacity, key, loaded);
    var pushed := [Entry(key, loaded)] + s;
    assert Keys(pushed) == [key] + Keys(s);
    if |s| == capacity {
      assert Keys(pushed[..capacity]) == Keys(pushed)[..capacity];
    }
  }

  /**
   Calling `Get`, and `Insert` on a miss, moves the key to the front of the key order and keeps the
   first `capacity` keys; `Erase` removes the key.
   */
  lemma ReadThroughKeys<K, V>(s: seq<Entry<K, V>>, capacity: nat, key: K, loaded: V)
    requires DistinctKeys(s) && |s| <= capacity
    ensures Keys(ReadThrough(s, capacity, key, loaded)) == Step(Keys(s), capacity, Request(key))
    ensures Keys(Drop(s, key)) == Step(Keys(s), capacity, Erase(key))
    ensures Lookup(s, key).None? <==> IsMiss(Keys(s), Request(key))
  {
    LookupHasKey(s, key);
    DropWithout(s, key);
    HasKeyIn(s, key);
    if HasKey(s, key) {
      HitKeys(s, capacity, key);
    } else {
      MissKeys(s, capacity, key, loaded);
    }
  }

  /** The entries after a run; `loads[i]` is the value the client would load at operation i. */
  function Serve<K(==), V>(s: seq<Entry<K, V>>, capacity: nat, ops: seq<Op<K>>, loads: seq<V>): seq<Entry<K, V>>
    requires |loads| == |ops|
  {
    if ops == [] then s
    else
      var n := |ops| - 1;
      var t := Serve(s, capacity, ops[..n], loads[..n]);
      match ops[n]
      case Request(key) => ReadThrough(t, capacity, key, loads[n])
      case Erase(key) => Drop(t, key)
  }

  lemma ReadThroughValid<K, V>(s: seq<Entry<K, V>>, capacity: nat, key: K, loaded: V)
    requires DistinctKeys(s) && |s| <= capacity
    ensures DistinctKeys(ReadThrough(s, capacity, key, loaded)) && |ReadThrough(s, capacity, key, loaded)| <= capacity
    ensures DistinctKeys(Drop(s, key)) && |Drop(s, key)| <= capacity
  {
    LookupHasKey(s, key);
    RefreshedMeaning(s, key, key);
    InsertedMeaning(s, capacity, key, loaded, key);
    DropKeepsDistinct(s, key);
  }

  /** Whole runs on entries, whatever values are loaded, are the key runs the theorems speak of. */
  lemma {:induction false} ServeKeys<K, V>(s: seq<Entry<K, V>>, capacity: nat, ops: seq<Op<K>>, loads: seq<V>)
    requires DistinctKeys(s) && |s| <= capacity && |loads| == |ops|
    ensures DistinctKeys(Serve(s, capacity, ops, loads)) && |Serve(s, capacity, ops, loads)| <= capacity
    ensures Keys(Serve(s, capacity, ops, loads)) == Run(Keys(s), capacity, ops)
  {
    if ops != [] {
      hide DistinctKeys, ReadThrough, Drop, Step;
      var n := |ops| - 1;
      ServeKeys(s, capacity, ops[..n], loads[..n]);
      var t := Serve(s, capacity, ops[..n], loads[..n]);
      ReadThroughValid(t, capacity, ops[n].key, loads[n]);
      ReadThroughKeys(t, capacity, ops[n].key, loads[n]);
    }
  }

  // ----- Inclusion

  lemma StepPrefix<K(!new)>(s: seq<K>, c: nat, s': seq<K>, c': nat, op: Op<K>)
    requires s <= s' && c <= c'
    ensures Step(s, c, op) <= Step(s', c', op)
  {
    assert s' == s + s'[|s|..];
    WithoutSplit(s, s'[|s|..], op.key);
  }

  /**
   Inclusion: the same requests and erases on two caches, the smaller starting with a prefix of the
   larger (for instance both empty), leave the smaller's key order a prefix of the larger's.
   */
  lemma {:induction false} Inclusion<K(!new)>(s: seq<K>, c: nat, s': seq<K>, c': nat, ops: seq<Op<K>>)
    requires s <= s' && c <= c'
    ensures Run(s, c, ops) <= Run(s', c', ops)
  {
    if ops != [] {
      var before := ops[..|ops| - 1];
      Inclusion(s, c, s', c', before);
      StepPrefix(Run(s, c, before), c, Run(s', c', before), c', ops[|ops| - 1]);
    }
  }

  /** So a larger capacity never turns a hit into a miss, and never adds misses. */
  lemma {:induction false} LargerNeverMissesMore<K(!new)>(c: nat, c': nat, ops: seq<Op<K>>)
    requires c <= c'
    ensures Misses([], c', ops) <= Misses([], c, ops)
    ensures forall op :: IsMiss(Run([], c', ops), op) ==> IsMiss(Run([], c, ops), op)
  {
    Inclusion([], c, [], c', ops);
    if ops != [] {
      LargerNeverMissesMore(c, c', ops[..|ops| - 1]);
    }
  }

  /**
   Traffic that inserts without asking first is another matter, because `Insert` does not refresh a
   cached key: the smaller cache stays a prefix of the larger exactly when the two agree on whether
   the key is cached (or the smaller has no room, or holds nothing while the larger's front is the key).
   */
  lemma PlainInsertKeepsPrefixIff<K(!new)>(s: seq<K>, c: nat, s': seq<K>, c': nat, key: K)
    requires State(s, c) && State(s', c') && s <= s' && c <= c'
    ensures PlainInsert(s, c, key) <= PlainInsert(s', c', key)
            <==> key in s || key !in s' || c == 0 || (s == [] && s'[0] == key)
  {
    if key !in s && key in s' && c > 0 {
      assert PlainInsert(s, c, key)[0] == key;
      assert PlainInsert(s', c', key) == s';
      if s != [] {
        assert s'[0] == s[0];
      }
    }
  }

  function PlainInsert<K(==)>(s: seq<K>, capacity: nat, key: K): seq<K> {
    if key in s then s else Take([key] + s, capacity)
  }

  function PlainInserts<K(==)>(capacity: nat, keys: seq<K>): seq<K> {
    if keys == [] then [] else PlainInsert(PlainInserts(capacity, keys[..|keys| - 1]), capacity, keys[|keys| - 1])
  }

  lemma PlainInsertsLast(capacity: nat, keys: seq<int>, key: int)
    ensures PlainInserts<int>(capacity, []) == []
    ensures PlainInserts(capacity, keys + [key]) == PlainInsert(PlainInserts(capacity, keys), capacity, key)
  {
    assert (keys + [key])[..|keys|] == keys;
  }

  const REPEATED: seq<int> := [] + [0] + [1] + [2] + [0] + [3]

  /** For instance, inserting 0, 1, 2, 0, 3 leaves key 0 cached with capacity 2 but not with capacity 3. */
  lemma PlainInsertsBreakInclusion()
    ensures 0 in PlainInserts(2, REPEATED) && 0 !in PlainInserts(3, REPEATED)
  {
    hide PlainInserts;
    PlainInsertsLast(2, [], 0);
    PlainInsertsLast(2, [] + [0], 1);
    PlainInsertsLast(2, [] + [0] + [1], 2);
    PlainInsertsLast(2, [] + [0] + [1] + [2], 0);
    PlainInsertsLast(2, [] + [0] + [1] + [2] + [0], 3);
    assert PlainInsert(PlainInsert([], 2, 0), 2, 1) == [1, 0];
    assert PlainInsert(PlainInsert(PlainInsert([1, 0], 2, 2), 2, 0), 2, 3) == [3, 0];
    PlainInsertsLast(3, [], 0);
    PlainInsertsLast(3, [] + [0], 1);
    PlainInsertsLast(3, [] + [0] + [1], 2);
    PlainInsertsLast(3, [] + [0] + [1] + [2], 0);
    PlainInsertsLast(3, [] + [0] + [1] + [2] + [0], 3);
    assert PlainInsert(PlainInsert([], 3, 0), 3, 1) == [1, 0];
    assert PlainInsert(PlainInsert(PlainInsert([1, 0], 3, 2), 3, 0), 3, 3) == [3, 2, 1];
  }

  // ----- The order of most recent requests

  /** The key order of a cache that never overflows. */
  function Unbounded<K(==)>(s: seq<K>, ops: seq<Op<K>>): seq<K> {
    if ops == [] then s
    else
      var key := ops[|ops| - 1].key;
      [key] + Without(Unbounded(s, ops[..|ops| - 1]), key)
  }

  /** The position of the last operation on `key`, or -1. */
  function LastUse<K(==)>(ops: seq<Op<K>>, key: K): int {
    if ops == [] then -1
    else if ops[|ops| - 1].key == key then |ops| - 1
    else LastUse(ops[..|ops| - 1], key)
  }

  /** Moving a key to the front and cutting at `capacity` commute with having cut before. */
  lemma TakeStep<K(!new)>(s: seq<K>, capacity: nat, key: K)
    requires Distinct(s)
    ensures Take([key] + Without(Take(s, capacity), key), capacity) == Take([key] + Without(s, key), capacity)
  {
    hide Without, Take;
    var cut := Take(s, capacity);
    TakeCuts(s, capacity);
    if i :| 0 <= i < |s| && s[i] == key {
      WithoutAt(s, i);
      if i < |cut| {
        WithoutAt(cut, i);
        CutInside(s, capacity, i);
      } else {
        WithoutAbsent(cut, key);
        CutBefore(s, capacity, i);
      }
    } else {
      WithoutAbsent(cut, key);
      WithoutAbsent(s, key);
      TakeAfterFront(s, capacity, key);
    }
  }

  lemma TakeCuts<K(!new)>(s: seq<K>, capacity: nat)
    requires Distinct(s)
    ensures var cut := Take(s, capacity);
            && Distinct(cut) && |cut| <= |s| && (forall j :: 0 <= j < |cut| ==> cut[j] == s[j])
            && (forall i :: |cut| <= i < |s| ==> s[i] !in cut)
  {
  }

  lemma TakeAfterFront<K>(s: seq<K>, capacity: nat, key: K)
    ensures Take([key] + Take(s, capacity), capacity) == Take([key] + s, capacity)
  {
  }

  lemma CutInside<K>(s: seq<K>, capacity: nat, i: nat)
    requires i < |Take(s, capacity)|
    ensures var cut := Take(s, capacity);
            Take([s[i]] + (cut[..i] + cut[i + 1..]), capacity) == Take([s[i]] + (s[..i] + s[i + 1..]), capacity)
  {
  }

  lemma CutBefore<K>(s: seq<K>, capacity: nat, i: nat)
    requires |Take(s, capacity)| <= i < |s|
    ensures Take([s[i]] + Take(s, capacity), capacity) == Take([s[i]] + (s[..i] + s[i + 1..]), capacity)
  {
  }

  lemma {:induction false} UnboundedDistinct<K(!new)>(s: seq<K>, ops: seq<Op<K>>)
    requires Distinct(s)
    ensures Distinct(Unbounded(s, ops))
  {
    if ops != [] {
      UnboundedDistinct(s, ops[..|ops| - 1]);
      WithoutState(Unbounded(s, ops[..|ops| - 1]), ops[|ops| - 1].key);
    }
  }

  lemma {:induction false} RunIsCut<K(!new)>(s: seq<K>, capacity: nat, ops: seq<Op<K>>)
    requires State(s, capacity) && EraseFree(ops)
    ensures Run(s, capacity, ops) == Take(Unbounded(s, ops), capacity)
  {
    if ops != [] {
      var before := ops[..|ops| - 1];
      RunIsCut(s, capacity, before);
      UnboundedDistinct(s, before);
      TakeStep(Unbounded(s, before), capacity, ops[|ops| - 1].key);
    }
  }

  lemma {:induction false} UnboundedPrefix<K(!new)>(s: seq<K>, s': seq<K>, ops: seq<Op<K>>)
    requires s <= s'
    ensures Unbounded(s, ops) <= Unbounded(s', ops)
  {
    if ops != [] {
      var before := ops[..|ops| - 1];
      UnboundedPrefix(s, s', before);
      var t, t' := Unbounded(s, before), Unbounded(s', before);
      assert t' == t + t'[|t|..];
      WithoutSplit(t, t'[|t|..], ops[|ops| - 1].key);
    }
  }

  lemma {:induction false} UnboundedElements<K(!new)>(ops: seq<Op<K>>)
    ensures Elements(Unbounded([], ops)) == Touched(ops)
    ensures |Unbounded([], ops)| == |Touched(ops)|
  {
    if ops != [] {
      var before, key := ops[..|ops| - 1], ops[|ops| - 1].key;
      UnboundedElements(before);
      WithoutElements(Unbounded([], before), key);
    }
    UnboundedDistinct([], ops);
    DistinctCardinality(Unbounded([], ops));
  }

  lemma {:induction false} LastUseMeaning<K(!new)>(ops: seq<Op<K>>, key: K)
    ensures -1 <= LastUse(ops, key) < |ops|
    ensures LastUse(ops, key) >= 0 ==> ops[LastUse(ops, key)].key == key
    ensures forall i :: LastUse(ops, key) < i < |ops| ==> ops[i].key != key
    ensures LastUse(ops, key) >= 0 <==> key in Touched(ops)
  {
    if ops != [] {
      LastUseMeaning(ops[..|ops| - 1], key);
    }
  }

  ghost predicate ByLastUse<K(!new)>(s: seq<K>, ops: seq<Op<K>>) {
    forall i, j :: 0 <= i < j < |s| ==> LastUse(ops, s[i]) > LastUse(ops, s[j])
  }

  lemma WithoutByLastUse<K(!new)>(s: seq<K>, ops: seq<Op<K>>, key: K)
    requires Distinct(s) && ByLastUse(s, ops)
    ensures ByLastUse(Without(s, key), ops)
  {
    if key in s {
      var at :| 0 <= at < |s| && s[at] == key;
      WithoutAt(s, at);
    } else {
      WithoutAbsent(s, key);
    }
  }

  lemma {:induction false} UnboundedByLastUse<K(!new)>(ops: seq<Op<K>>)
    ensures ByLastUse(Unbounded([], ops), ops)
  {
    if ops != [] {
      var before, key := ops[..|ops| - 1], ops[|ops| - 1].key;
      var t := Unbounded([], before);
      UnboundedByLastUse(before);
      UnboundedDistinct([], before);
      WithoutState(t, key);
      WithoutByLastUse(t, before, key);
      var rest := Without(t, key);
      forall i, j | 0 <= i < j < |[key] + rest|
        ensures LastUse(ops, ([key] + rest)[i]) > LastUse(ops, ([key] + rest)[j])
      {
        assert rest[j - 1] != key;
        LastUseMeaning(before, rest[j - 1]);
      }
    }
  }

  /**
   Recency characterisation: after any Erase-free run from an empty cache the cached keys are the
   `capacity` most recently requested ones (all of them while there are fewer), latest first.
   */
  lemma CachesMostRecent<K(!new)>(capacity: nat, ops: seq<Op<K>>)
    requires EraseFree(ops)
    ensures var t := Run([], capacity, ops);
            && Distinct(t)
            && |t| == (if |Touched(ops)| <= capacity then |Touched(ops)| else capacity)
            && (forall k :: k in t ==> k in Touched(ops))
            && ByLastUse(t, ops)
            && (forall k, i :: k in Touched(ops) && k !in t && 0 <= i < |t| ==> LastUse(ops, k) < LastUse(ops, t[i]))
  {
    hide Unbounded, Run, LastUse, Touched;
    var u := Unbounded([], ops);
    RunIsCut([], capacity, ops);
    UnboundedDistinct([], ops);
    UnboundedElements(ops);
    UnboundedByLastUse(ops);
    forall k, i | k in Touched(ops) && k !in Take(u, capacity) && 0 <= i < |Take(u, capacity)|
      ensures LastUse(ops, k) < LastUse(ops, u[i])
    {
      assert k in Elements(u);
    }
  }

  // ----- Misses in a window

  function MissesOf<K(==)>(s: seq<K>, capacity: nat, ops: seq<Op<K>>, key: K): nat {
    if ops == [] then 0
    else
      var before, op := ops[..|ops| - 1], ops[|ops| - 1];
      MissesOf(s, capacity, before, key)
      + if op.key == key && IsMiss(Run(s, capacity, before), op) then 1 else 0
  }

  /** What a stretch has touched stays cached as long as it touches at most `capacity` keys. */
  lemma WindowStays<K(!new)>(s: seq<K>, capacity: nat, ops: seq<Op<K>>)
    requires State(s, capacity) && EraseFree(ops) && |Touched(ops)| <= capacity
    ensures forall k :: k in Touched(ops) ==> k in Run(s, capacity, ops)
  {
    RunIsCut(s, capacity, ops);
    UnboundedPrefix([], s, ops);
    UnboundedElements(ops);
    forall k | k in Touched(ops) ensures k in Run(s, capacity, ops) {
      assert k in Elements(Unbounded([], ops));
    }
  }

  lemma TouchedMonotone<K(!new)>(ops: seq<Op<K>>)
    requires ops != []
    ensures |Touched(ops[..|ops| - 1])| <= |Touched(ops)|
    ensures |Touched(ops)| ==
            |Touched(ops[..|ops| - 1])| + if ops[|ops| - 1].key in Touched(ops[..|ops| - 1]) then 0 else 1
  {
    var before, key := Touched(ops[..|ops| - 1]), ops[|ops| - 1].key;
    assert key in before ==> before + {key} == before;
  }

  /**
   Window bound: from any cache state, in an Erase-free stretch that touches at most `capacity`
   distinct keys, each key misses at most once and untouched keys never do.
   */
  lemma {:induction false} WindowBound<K(!new)>(s: seq<K>, capacity: nat, ops: seq<Op<K>>, key: K)
    requires State(s, capacity) && EraseFree(ops) && |Touched(ops)| <= capacity
    ensures MissesOf(s, capacity, ops, key) <= if key in Touched(ops) then 1 else 0
  {
    if ops != [] {
      var before := ops[..|ops| - 1];
      TouchedMonotone(ops);
      WindowBound(s, capacity, before, key);
      WindowStays(s, capacity, before);
    }
  }

  /** So such a stretch misses at most once per distinct key in all. */
  lemma {:induction false} WindowTotal<K(!new)>(s: seq<K>, capacity: nat, ops: seq<Op<K>>)
    requires State(s, capacity) && EraseFree(ops) && |Touched(ops)| <= capacity
    ensures Misses(s, capacity, ops) <= |Touched(ops)|
  {
    if ops != [] {
      var before := ops[..|ops| - 1];
      TouchedMonotone(ops);
      WindowTotal(s, capacity, before);
      WindowStays(s, capacity, before);
    }
  }
}

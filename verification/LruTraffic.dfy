/** Read-through traffic on the cache's nodes and links: the run theorems hold of them. */
module LruTraffic {
  import opened Recency
  import opened LruCache
  import opened LruRuns
  import opened Competitive

  /**
   A client that asks, and loads and inserts on a miss only. What the nodes hold, and how often it
   misses, is what the runs on values say; so the misses are within the competitive bound.
   */
  method ServeAll<K(==, !new), V>(cache: LruCache<K, V>, ops: seq<Op<K>>, loads: seq<V>) returns (misses: nat)
    requires cache.Valid() && |loads| == |ops|
    modifies cache, cache.order, cache.order.footprint
    ensures cache.Valid()
    ensures cache.Contents() == Serve(old(cache.Contents()), cache.capacity, ops, loads)
    ensures misses == Misses(Keys(old(cache.Contents())), cache.capacity, ops)
    ensures old(cache.Contents()) == [] && EraseFree(ops) && cache.capacity >= 1 ==>
              forall trace :: DemandPolicy(ops, trace, cache.capacity) ==>
                misses <= cache.capacity * RivalMisses(ops, trace, |ops|)
  {
    hide LruCache.Valid, Inserted, Refreshed, Drop, Lookup, Keys, DemandPolicy, RivalMisses, DistinctKeys, EraseFree;
    ghost var was, c := cache.Contents(), cache.capacity;
    cache.ValidEntries();
    misses := 0;
    for i := 0 to |ops|
      invariant cache.Valid() && fresh(cache.order.footprint - old(cache.order.footprint))
      invariant cache.Contents() == Serve(was, c, ops[..i], loads[..i])
      invariant misses == Misses(Keys(was), c, ops[..i])
    {
      ghost var before := cache.Contents();
      ServeNext(was, c, ops, loads, i);
      match ops[i]
      case Request(key) =>
        var found := cache.Get(key);
        if found.None? {
          misses := misses + 1;
          cache.Insert(key, loads[i]);
        }
      case Erase(key) =>
        cache.Erase(key);
    }
    assert ops[..|ops|] == ops && loads[..|loads|] == loads;
    if was == [] && EraseFree(ops) && c >= 1 {
      EmptyKeys(was);
      AgainstEveryRival(ops, c);
    }
  }

  lemma AgainstEveryRival<K(!new)>(ops: seq<Op<K>>, k: nat)
    requires EraseFree(ops) && k >= 1
    ensures forall trace :: DemandPolicy(ops, trace, k) ==> Misses([], k, ops) <= k * RivalMisses(ops, trace, |ops|)
  {
    forall trace | DemandPolicy(ops, trace, k) ensures Misses([], k, ops) <= k * RivalMisses(ops, trace, |ops|) {
      CompetitiveBound(ops, k, trace);
    }
  }

  lemma EmptyKeys<K, V>(s: seq<Entry<K, V>>)
    requires s == []
    ensures Keys(s) == []
  {
  }

  /** One more operation of a run, on entries and in the miss count. */
  lemma ServeNext<K(!new), V>(s: seq<Entry<K, V>>, capacity: nat, ops: seq<Op<K>>, loads: seq<V>, i: nat)
    requires DistinctKeys(s) && |s| <= capacity && i < |ops| == |loads|
    ensures var t := Serve(s, capacity, ops[..i], loads[..i]);
            Serve(s, capacity, ops[..i + 1], loads[..i + 1]) ==
            match ops[i]
            case Request(key) =>
              if Lookup(t, key).Some? then Refreshed(t, key) else Inserted(Refreshed(t, key), capacity, key, loads[i])
            case Erase(key) => Drop(t, key)
    ensures Misses(Keys(s), capacity, ops[..i + 1]) ==
            Misses(Keys(s), capacity, ops[..i])
            + if ops[i].Request? && Lookup(Serve(s, capacity, ops[..i], loads[..i]), ops[i].key).None? then 1 else 0
  {
    hide DistinctKeys, Inserted, Refreshed, Drop, Lookup, Keys;
    assert ops[..i + 1][..i] == ops[..i] && loads[..i + 1][..i] == loads[..i];
    var t := Serve(s, capacity, ops[..i], loads[..i]);
    ServeKeys(s, capacity, ops[..i], loads[..i]);
    ReadThroughKeys(t, capacity, ops[i].key, loads[i]);
  }
}

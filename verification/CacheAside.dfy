/**
 The read-through wiring intended for the storage client: a collection of documents with the cache
 in front of it. The cache calls are the ones commented out in the storage client.
 */
module CacheAside {
  import opened Wrappers
  import opened Recency
  import opened LruCache
  import LruRuns
  import Storage

  /** Every cached value is the stored one. */
  ghost predicate Coherent<K, V>(s: seq<Entry<K, V>>, documents: map<K, V>) {
    forall e :: e in s ==> e.key in documents && documents[e.key] == e.value
  }

  /** What a client of the bare collection would see. */
  function Find<K(==), V>(documents: map<K, V>, id: K): Result<V, int> {
    if id in documents then Success(documents[id]) else Failure(Storage.NOT_FOUND)
  }

  class CachedCollection<K(==), V> {
    var documents: map<K, V>
    const cache: LruCache<K, V>

    ghost predicate Valid()
      reads this, cache, cache.order, cache.order.footprint
    {
      cache.Valid() && Coherent(cache.Contents(), documents)
    }

    ghost function State(): World<K, V>
      reads this, cache.order
    {
      World(documents, cache.Contents())
    }

    constructor (documents: map<K, V>, capacity: nat)
      ensures Valid() && this.documents == documents
    {
      this.documents := documents;
      cache := new LruCache(capacity);
    }

    /** `GetBuild` and `GetTaskMetaData` with their cache lines in place. */
    method Get(id: K) returns (r: Result<V, int>)
      requires Valid()
      modifies cache, cache.order, cache.order.footprint
      ensures Valid() && documents == old(documents)
      ensures r == Find(documents, id)
      ensures (State(), Some(r)) == Served(old(State()), cache.capacity, Read(id))
    {
      hide LruCache.Valid, Inserted, Refreshed, Lookup, Coherent;
      CachedAgree(cache.Contents(), documents, id);
      var maybe := cache.Get(id);
      if maybe.Some? {
        return Success(maybe.value);
      }
      if id !in documents {
        return Failure(Storage.NOT_FOUND);
      }
      InsertCoherent(cache.Contents(), cache.capacity, id, documents);
      cache.Insert(id, documents[id]);
      return Success(documents[id]);
    }

    /** `UpsertBuild` and `UpsertTaskMetaData` with their cache line in place. */
    method Upsert(id: K, value: V)
      requires Valid()
      modifies this, cache, cache.order, cache.order.footprint
      ensures Valid() && documents == old(documents)[id := value]
      ensures (State(), None) == Served(old(State()), cache.capacity, Write(id, value))
    {
      hide LruCache.Valid, Drop;
      documents := documents[id := value];
      EraseCoherent(cache.Contents(), old(documents), id, value);
      cache.Erase(id);
    }
  }

  lemma {:induction false} LookupEntry<K, V>(s: seq<Entry<K, V>>, key: K)
    ensures Lookup(s, key).Some? ==> Entry(key, Lookup(s, key).value) in s
  {
    if s != [] {
      LookupEntry(s[1..], key);
      assert s == [s[0]] + s[1..];
    }
  }

  lemma {:induction false} DropEntries<K, V>(s: seq<Entry<K, V>>, key: K)
    ensures forall e :: e in Drop(s, key) <==> e in s && e.key != key
  {
    if s != [] {
      DropEntries(s[1..], key);
      assert s == [s[0]] + s[1..];
    }
  }

  lemma RefreshedEntry<K, V>(s: seq<Entry<K, V>>, key: K, e: Entry<K, V>)
    requires e in Refreshed(s, key)
    ensures e in s
  {
    LookupEntry(s, key);
    DropEntries(s, key);
    if Lookup(s, key).Some? && e != Entry(key, Lookup(s, key).value) {
      assert e in Drop(s, key);
    }
  }

  /** A cached answer is the collection's answer, and asking keeps the cache coherent. */
  lemma CachedAgree<K, V>(s: seq<Entry<K, V>>, documents: map<K, V>, id: K)
    requires Coherent(s, documents)
    ensures Lookup(s, id).Some? ==> Find(documents, id) == Success(Lookup(s, id).value)
    ensures Coherent(Refreshed(s, id), documents)
  {
    LookupEntry(s, id);
    forall e | e in Refreshed(s, id) ensures e.key in documents && documents[e.key] == e.value {
      RefreshedEntry(s, id, e);
    }
  }

  lemma InsertCoherent<K, V>(s: seq<Entry<K, V>>, capacity: nat, id: K, documents: map<K, V>)
    requires Coherent(s, documents) && id in documents
    ensures Coherent(Inserted(s, capacity, id, documents[id]), documents)
  {
  }

  lemma EraseCoherent<K, V>(s: seq<Entry<K, V>>, documents: map<K, V>, id: K, value: V)
    requires Coherent(s, documents)
    ensures Coherent(Drop(s, id), documents[id := value])
  {
    DropEntries(s, id);
  }

  /**
   The erase after each write is needed: without it the cache stays coherent exactly when the key is
   not cached or is cached with the written value. Inserting after the write does not help, because
   `Insert` never overwrites.
   */
  lemma WithoutEraseIff<K, V>(s: seq<Entry<K, V>>, capacity: nat, documents: map<K, V>, id: K, value: V)
    requires Coherent(s, documents) && DistinctKeys(s) && |s| <= capacity
    ensures Coherent(s, documents[id := value]) <==> Lookup(s, id).None? || Lookup(s, id) == Some(value)
    ensures Coherent(Inserted(s, capacity, id, value), documents[id := value])
            <==> Lookup(s, id).None? || Lookup(s, id) == Some(value)
  {
    LookupHasKey(s, id);
    LookupEntry(s, id);
    forall i | 0 <= i < |s| && s[i].key == id ensures Lookup(s, id) == Some(s[i].value) {
      LookupAt(s, i);
    }
    if HasKey(s, id) {
      assert Inserted(s, capacity, id, value) == s;
    }
  }

  // ----- Whole runs

  datatype Op<+K, +V> = Read(id: K) | Write(id: K, value: V)

  datatype World<!K(==), V> = World(documents: map<K, V>, cached: seq<Entry<K, V>>)

  /** One operation through the cache: the new state, and the answer to a read. */
  function Served<K(==), V>(w: World<K, V>, capacity: nat, op: Op<K, V>): (World<K, V>, Option<Result<V, int>>) {
    match op
    case Write(id, value) =>
      (World(w.documents[id := value], Drop(w.cached, id)), None)
    case Read(id) =>
      var asked := Refreshed(w.cached, id);
      match Lookup(w.cached, id)
      case Some(value) => (World(w.documents, asked), Some(Success(value)))
      case None =>
        if id in w.documents then
          (World(w.documents, Inserted(asked, capacity, id, w.documents[id])), Some(Success(w.documents[id])))
        else (World(w.documents, asked), Some(Failure(Storage.NOT_FOUND)))
  }

  function Answers<K(==), V>(w: World<K, V>, capacity: nat, ops: seq<Op<K, V>>): seq<Option<Result<V, int>>>
    decreases |ops|
  {
    if ops == [] then []
    else
      var (w', answer) := Served(w, capacity, ops[0]);
      [answer] + Answers(w', capacity, ops[1..])
  }

  /** The same run on the collection alone. */
  function UncachedAnswers<K(==), V>(documents: map<K, V>, ops: seq<Op<K, V>>): seq<Option<Result<V, int>>>
    decreases |ops|
  {
    if ops == [] then []
    else
      match ops[0]
      case Write(id, value) => [None] + UncachedAnswers(documents[id := value], ops[1..])
      case Read(id) => [Some(Find(documents, id))] + UncachedAnswers(documents, ops[1..])
  }

  lemma ServedCoherent<K, V>(w: World<K, V>, capacity: nat, op: Op<K, V>)
    requires Coherent(w.cached, w.documents)
    ensures var (w', answer) := Served(w, capacity, op);
            && Coherent(w'.cached, w'.documents)
            && w'.documents == (if op.Write? then w.documents[op.id := op.value] else w.documents)
            && answer == (if op.Write? then None else Some(Find(w.documents, op.id)))
  {
    hide Coherent, Refreshed, Inserted, Lookup, Drop;
    match op
    case Write(id, value) => EraseCoherent(w.cached, w.documents, id, value);
    case Read(id) =>
      CachedAgree(w.cached, w.documents, id);
      if id in w.documents {
        InsertCoherent(Refreshed(w.cached, id), capacity, id, w.documents);
      }
  }

  /**
   Cache-aside coherence: over every run of reads and writes, one at a time, and for every capacity,
   reads through the cache answer exactly as reads of the collection alone.
   */
  lemma {:induction false} CacheIsTransparent<K, V>(w: World<K, V>, capacity: nat, ops: seq<Op<K, V>>)
    requires Coherent(w.cached, w.documents)
    ensures Answers(w, capacity, ops) == UncachedAnswers(w.documents, ops)
    decreases |ops|
  {
    if ops != [] {
      hide Coherent, Served;
      ServedCoherent(w, capacity, ops[0]);
      CacheIsTransparent(Served(w, capacity, ops[0]).0, capacity, ops[1..]);
    }
  }

  /**
   Reading a stored document is the read-through of the run theorems: whatever was cached, the document
   is then cached, in front of the others. Reading one that is not stored caches nothing.
   */
  lemma ReadCaches<K, V>(w: World<K, V>, capacity: nat, id: K)
    requires Coherent(w.cached, w.documents)
    ensures var cached := Served(w, capacity, Read(id)).0.cached;
            if id in w.documents then
              && cached == LruRuns.ReadThrough(w.cached, capacity, id, w.documents[id])
              && (capacity >= 1 ==> cached != [] && cached[0] == Entry(id, w.documents[id]))
            else cached == w.cached
  {
    LookupEntry(w.cached, id);
    LookupHasKey(w.cached, id);
  }
}

/** What the cache means as a value: its entries, from most to least recently used. */
module Recency {
  import opened Wrappers
  import opened Sequences

  datatype Entry<+K, +V> = Entry(key: K, value: V)

  function Keys<K, V>(s: seq<Entry<K, V>>): (ks: seq<K>)
    ensures |ks| == |s|
    ensures forall i :: 0 <= i < |s| ==> ks[i] == s[i].key
  {
    seq(|s|, i requires 0 <= i < |s| => s[i].key)
  }

  predicate HasKey<K(==), V>(s: seq<Entry<K, V>>, key: K) {
    exists i :: 0 <= i < |s| && s[i].key == key
  }

  /** Entries of a cache never repeat a key. */
  ghost predicate DistinctKeys<K, V>(s: seq<Entry<K, V>>) {
    forall i, j :: 0 <= i < j < |s| ==> s[i].key != s[j].key
  }

  /** The value bound to `key`, if there is one. */
  function Lookup<K(==), V>(s: seq<Entry<K, V>>, key: K): Option<V> {
    if s == [] then None
    else if s[0].key == key then Some(s[0].value)
    else Lookup(s[1..], key)
  }

  /** `s` without the entries for `key`, in the same order. */
  function Drop<K(==), V>(s: seq<Entry<K, V>>, key: K): seq<Entry<K, V>> {
    if s == [] then []
    else if s[0].key == key then Drop(s[1..], key)
    else [s[0]] + Drop(s[1..], key)
  }

  function Inserted<K(==), V>(s: seq<Entry<K, V>>, capacity: nat, key: K, value: V): seq<Entry<K, V>> {
    if HasKey(s, key) then s else Take([Entry(key, value)] + s, capacity)
  }

  lemma InsertedSplit<K, V>(s: seq<Entry<K, V>>, capacity: nat, key: K, value: V)
    requires |s| <= capacity
    ensures Inserted(s, capacity, key, value) ==
            if HasKey(s, key) then s
            else if |s| < capacity then [Entry(key, value)] + s
            else ([Entry(key, value)] + s)[..|s|]
  {
  }

  function Refreshed<K(==), V>(s: seq<Entry<K, V>>, key: K): seq<Entry<K, V>> {
    match Lookup(s, key)
    case None => s
    case Some(value) => [Entry(key, value)] + Drop(s, key)
  }

  lemma {:induction false} LookupAt<K, V>(s: seq<Entry<K, V>>, i: nat)
    requires i < |s| && DistinctKeys(s)
    ensures Lookup(s, s[i].key) == Some(s[i].value)
  {
    if i > 0 {
      assert s[1..][i - 1] == s[i];
      LookupAt(s[1..], i - 1);
    }
  }

  lemma {:induction false} LookupHasKey<K, V>(s: seq<Entry<K, V>>, key: K)
    ensures Lookup(s, key).Some? <==> HasKey(s, key)
  {
    if s != [] {
      LookupHasKey(s[1..], key);
      if s[0].key == key {
        assert HasKey(s, key);
      } else {
        if HasKey(s[1..], key) {
          var i :| 0 <= i < |s[1..]| && s[1..][i].key == key;
          assert s[i + 1].key == key;
        }
        if HasKey(s, key) {
          var i :| 0 <= i < |s| && s[i].key == key;
          assert s[1..][i - 1].key == key;
        }
      }
    }
  }

  lemma {:induction false} DropAbsent<K, V>(s: seq<Entry<K, V>>, key: K)
    requires !HasKey(s, key)
    ensures Drop(s, key) == s
  {
    if s != [] {
      assert s[0].key != key;
      assert forall i :: 0 <= i < |s[1..]| ==> s[1..][i] == s[i + 1];
      DropAbsent(s[1..], key);
      assert s == [s[0]] + s[1..];
    }
  }

  /** Unlinking the node at position `i` is dropping its key. */
  lemma {:induction false} DropAt<K, V>(s: seq<Entry<K, V>>, i: nat)
    requires i < |s| && DistinctKeys(s)
    ensures Drop(s, s[i].key) == s[..i] + s[i + 1..]
  {
    if i == 0 {
      DropAbsent(s[1..], s[0].key);
    } else {
      assert s[1..][i - 1] == s[i];
      DropAt(s[1..], i - 1);
      assert s[..i] + s[i + 1..] == [s[0]] + (s[1..][..i - 1] + s[1..][i..]);
    }
  }

  lemma {:induction false} DropLookup<K, V>(s: seq<Entry<K, V>>, key: K, other: K)
    ensures Lookup(Drop(s, key), other) == if other == key then None else Lookup(s, other)
  {
    if s != [] {
      DropLookup(s[1..], key, other);
      if s[0].key != key {
        assert Drop(s, key)[1..] == Drop(s[1..], key);
      }
    }
  }

  lemma {:induction false} DropKeepsDistinct<K, V>(s: seq<Entry<K, V>>, key: K)
    requires DistinctKeys(s)
    ensures DistinctKeys(Drop(s, key)) && !HasKey(Drop(s, key), key)
    ensures |Drop(s, key)| == if HasKey(s, key) then |s| - 1 else |s|
  {
    if HasKey(s, key) {
      var i :| 0 <= i < |s| && s[i].key == key;
      DropAt(s, i);
    } else {
      DropAbsent(s, key);
    }
  }

  /** `Get` returns the bound value, puts the key in front, and changes no binding. */
  lemma RefreshedMeaning<K, V>(s: seq<Entry<K, V>>, key: K, other: K)
    requires DistinctKeys(s)
    ensures DistinctKeys(Refreshed(s, key)) && |Refreshed(s, key)| == |s|
    ensures Lookup(Refreshed(s, key), other) == Lookup(s, other)
    ensures HasKey(s, key) ==> Refreshed(s, key)[0].key == key
  {
    LookupHasKey(s, key);
    if HasKey(s, key) {
      DropKeepsDistinct(s, key);
      DropLookup(s, key, other);
      var value := Lookup(s, key).value;
      assert ([Entry(key, value)] + Drop(s, key))[1..] == Drop(s, key);
    }
  }

  lemma {:induction false} LookupOfFront<K, V>(s: seq<Entry<K, V>>, n: nat, key: K)
    requires n <= |s| && DistinctKeys(s)
    ensures Lookup(s[..n], key) ==
            if exists i :: n <= i < |s| && s[i].key == key then None else Lookup(s, key)
  {
    LookupHasKey(s[..n], key);
    LookupHasKey(s, key);
    if HasKey(s, key) {
      var i :| 0 <= i < |s| && s[i].key == key;
      if i < n {
        assert s[..n][i].key == key;
        LookupAt(s[..n], i);
        LookupAt(s, i);
      }
    }
  }

  /** `Insert` never overwrites; a new key goes in front, and an overflow forgets exactly the back. */
  lemma InsertedMeaning<K, V>(s: seq<Entry<K, V>>, capacity: nat, key: K, value: V, other: K)
    requires DistinctKeys(s) && |s| <= capacity
    ensures DistinctKeys(Inserted(s, capacity, key, value))
    ensures |Inserted(s, capacity, key, value)| ==
            if HasKey(s, key) then |s| else if |s| < capacity then |s| + 1 else capacity
    ensures Lookup(Inserted(s, capacity, key, value), other) ==
            if HasKey(s, key) then Lookup(s, other)
            else if |s| == capacity && other == ([Entry(key, value)] + s)[|s|].key then None
            else if other == key then Some(value)
            else Lookup(s, other)
  {
    if !HasKey(s, key) {
      var t := [Entry(key, value)] + s;
      assert t[1..] == s;
      assert DistinctKeys(t);
      if |s| == capacity {
        LookupOfFront(t, capacity, other);
      }
    }
  }
}

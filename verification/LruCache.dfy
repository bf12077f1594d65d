/** The cache itself: a doubly linked list of entries and a map from keys to list nodes. */
module LruCache {
  import opened Wrappers
  import opened Sequences
  import opened Recency

  class Node<K, V> {
    var key: K
    var value: V
    var prev: Node?<K, V>
    var next: Node?<K, V>

    constructor (key: K, value: V, next: Node?<K, V>)
      ensures this.key == key && this.value == value && this.prev == null && this.next == next
    {
      this.key, this.value, this.prev, this.next := key, value, null, next;
    }
  }

  /** A doubly linked list with the operations of `std::list` that the cache uses. */
  class List<K, V> {
    var head: Node?<K, V>
    var tail: Node?<K, V>
    ghost var nodes: seq<Node<K, V>>      // the linked nodes, from front to back
    ghost var items: seq<Entry<K, V>>     // the pairs they hold
    ghost var footprint: set<Node<K, V>>  // every node this list ever linked

    ghost predicate Valid()
      reads this, footprint
    {
      && (forall n :: n in nodes ==> n in footprint)
      && (forall i, j :: 0 <= i < j < |nodes| ==> nodes[i] != nodes[j])
      && (nodes == [] ==> head == tail == null)
      && (nodes != [] ==>
            && head == nodes[0] && nodes[0].prev == null
            && tail == nodes[|nodes| - 1] && nodes[|nodes| - 1].next == null)
      && (forall i {:trigger nodes[i].prev} :: 1 <= i < |nodes| ==> nodes[i].prev == nodes[i - 1])
      && (forall i {:trigger nodes[i].next} :: 0 <= i < |nodes| - 1 ==> nodes[i].next == nodes[i + 1])
      && |items| == |nodes|
      && (forall i :: 0 <= i < |nodes| ==> items[i] == Entry(nodes[i].key, nodes[i].value))
    }

    constructor ()
      ensures Valid() && nodes == [] && items == [] && footprint == {}
    {
      head, tail, nodes, items, footprint := null, null, [], [], {};
    }

    method PushFront(key: K, value: V) returns (n: Node<K, V>)
      requires Valid()
      modifies this, footprint
      ensures Valid() && fresh(n) && footprint == old(footprint) + {n}
      ensures nodes == [n] + old(nodes)
      ensures items == [Entry(key, value)] + old(items)
    {
      n := new Node(key, value, head);
      if head == null {
        tail := n;
      } else {
        head.prev := n;
      }
      head := n;
      nodes := [n] + nodes;
      items := [Entry(key, value)] + items;
      footprint := footprint + {n};
      assert forall i :: 1 <= i < |nodes| ==> nodes[i] == old(nodes)[i - 1];
    }

    /** Unlinks the node an iterator points at. */
    method Erase(n: Node<K, V>, ghost at: nat)
      requires Valid()
      requires at < |nodes| && nodes[at] == n
      modifies this, footprint
      ensures Valid() && footprint == old(footprint)
      ensures nodes == old(nodes)[..at] + old(nodes)[at + 1..]
      ensures items == old(items)[..at] + old(items)[at + 1..]
    {
      var before, after := n.prev, n.next;
      assert before == if at > 0 then nodes[at - 1] else null;
      assert after == if at < |nodes| - 1 then nodes[at + 1] else null;
      assert before == null || before != after;
      if before == null {
        head := after;
      } else {
        before.next := after;
      }
      if after == null {
        tail := before;
      } else {
        after.prev := before;
      }
      nodes := nodes[..at] + nodes[at + 1..];
      items := items[..at] + items[at + 1..];
    }

    method Deref(n: Node<K, V>, ghost at: nat) returns (value: V)
      requires Valid()
      requires at < |nodes| && nodes[at] == n
      ensures value == items[at].value
    {
      value := n.value;
    }

    method Back() returns (key: K)
      requires Valid() && nodes != []
      ensures key == items[|items| - 1].key
    {
      key := tail.key;
    }

    method PopBack()
      requires Valid() && nodes != []
      modifies this, footprint
      ensures Valid() && footprint == old(footprint)
      ensures nodes == old(nodes)[..|old(nodes)| - 1]
      ensures items == old(items)[..|old(items)| - 1]
    {
      Erase(tail, |nodes| - 1);
    }
  }

  /** The map's domain is exactly the listed keys, and each entry points at its own node. */
  ghost predicate Indexed<K, V>(nodes: seq<Node<K, V>>, s: seq<Entry<K, V>>, values: map<K, Node<K, V>>) {
    && |nodes| == |s|
    && DistinctKeys(s)
    && (forall i :: 0 <= i < |s| ==> s[i].key in values && values[s[i].key] == nodes[i])
    && (forall k :: k in values ==> HasKey(s, k))
  }

  lemma IndexedMeaning<K, V>(nodes: seq<Node<K, V>>, s: seq<Entry<K, V>>, values: map<K, Node<K, V>>)
    requires Indexed(nodes, s, values)
    ensures forall k :: k in values <==> HasKey(s, k)
    ensures |values| == |nodes| == |s|
  {
    DistinctCardinality(Keys(s));
    assert values.Keys == Elements(Keys(s)) by {
      forall k | HasKey(s, k) ensures k in Keys(s) {
        var i :| 0 <= i < |s| && s[i].key == k;
        assert Keys(s)[i] == k;
      }
    }
    assert |values.Keys| == |values|;
  }

  lemma IndexedPush<K, V>(nodes: seq<Node<K, V>>, s: seq<Entry<K, V>>, values: map<K, Node<K, V>>,
                          n: Node<K, V>, e: Entry<K, V>)
    requires Indexed(nodes, s, values)
    requires e.key !in values
    ensures Indexed([n] + nodes, [e] + s, values[e.key := n])
  {
    forall k | k in values[e.key := n] ensures HasKey([e] + s, k) {
      if k == e.key {
        assert ([e] + s)[0].key == k;
      } else {
        var i :| 0 <= i < |s| && s[i].key == k;
        assert ([e] + s)[i + 1].key == k;
      }
    }
  }

  lemma IndexedRemove<K, V>(nodes: seq<Node<K, V>>, s: seq<Entry<K, V>>, values: map<K, Node<K, V>>, at: nat)
    requires Indexed(nodes, s, values) && at < |nodes|
    ensures Indexed(nodes[..at] + nodes[at + 1..], s[..at] + s[at + 1..], values - {s[at].key})
  {
    var t := s[..at] + s[at + 1..];
    forall k | k in values - {s[at].key} ensures HasKey(t, k) {
      var i :| 0 <= i < |s| && s[i].key == k;
      assert t[if i < at then i else i - 1].key == k;
    }
  }

  lemma IndexedAt<K, V>(nodes: seq<Node<K, V>>, s: seq<Entry<K, V>>, values: map<K, Node<K, V>>, at: nat)
    requires Indexed(nodes, s, values) && at < |s|
    ensures |nodes| == |s|
    ensures s[at].key in values && values[s[at].key] == nodes[at]
    ensures Drop(s, s[at].key) == s[..at] + s[at + 1..]
    ensures Lookup(s, s[at].key) == Some(s[at].value)
  {
    DropAt(s, at);
    LookupAt(s, at);
  }

  lemma IndexedPop<K, V>(nodes: seq<Node<K, V>>, s: seq<Entry<K, V>>, values: map<K, Node<K, V>>)
    requires Indexed(nodes, s, values) && nodes != []
    ensures Indexed(nodes[..|nodes| - 1], s[..|s| - 1], values - {s[|s| - 1].key})
  {
    var last := |s| - 1;
    IndexedRemove(nodes, s, values, last);
    assert nodes[..last] + nodes[last + 1..] == nodes[..last];
    assert s[..last] + s[last + 1..] == s[..last];
  }

  class LruCache<K(==), V> {
    const capacity: nat
    const order: List<K, V>
    var values: map<K, Node<K, V>>

    ghost predicate Valid()
      reads this, order, order.footprint
    {
      && order.Valid()
      && |order.items| <= capacity
      && Indexed(order.nodes, order.items, values)
    }

    /** A cache in a valid state lists no key twice and stays within its capacity. */
    lemma ValidEntries()
      requires Valid()
      ensures DistinctKeys(Contents()) && |Contents()| <= capacity
    {
    }

    /** The cached entries, from most to least recently used. */
    ghost function Contents(): seq<Entry<K, V>>
      reads order
    {
      order.items
    }

    constructor (capacity: nat)
      ensures Valid() && fresh(order) && order.footprint == {}
      ensures this.capacity == capacity && Contents() == []
    {
      this.capacity := capacity;
      this.order := new List();
      this.values := map[];
    }

    method Insert(key: K, value: V)
      requires Valid()
      modifies this, order, order.footprint
      ensures Valid() && fresh(order.footprint - old(order.footprint))
      ensures Contents() == Inserted(old(Contents()), capacity, key, value)
    {
      hide List.Valid, Indexed, DistinctKeys, Inserted, HasKey;
      IndexedMeaning(order.nodes, order.items, values);
      InsertedSplit(order.items, capacity, key, value);
      if key in values {
        return;
      }
      var begin := order.PushFront(key, value);
      IndexedPush(old(order.nodes), old(order.items), values, begin, Entry(key, value));
      values := values[key := begin];
      IndexedMeaning(order.nodes, order.items, values);
      if |values| > capacity {
        IndexedPop(order.nodes, order.items, values);
        var back := order.Back();
        values := values - {back};
        order.PopBack();
      }
    }

    method Get(key: K) returns (r: Option<V>)
      requires Valid()
      modifies this, order, order.footprint
      ensures Valid() && fresh(order.footprint - old(order.footprint))
      ensures r == Lookup(old(Contents()), key)
      ensures Contents() == Refreshed(old(Contents()), key)
    {
      hide List.Valid, Indexed, DistinctKeys;
      IndexedMeaning(order.nodes, order.items, values);
      LookupHasKey(order.items, key);
      if key !in values {
        return None;
      }
      var it := values[key];
      ghost var at :| 0 <= at < |order.items| && order.items[at].key == key;
      IndexedAt(order.nodes, order.items, values, at);
      IndexedRemove(order.nodes, order.items, values, at);
      var value := order.Deref(it, at);
      order.Erase(it, at);
      ghost var rest, dropped := order.nodes, order.items;
      var begin := order.PushFront(key, value);
      IndexedPush(rest, dropped, values - {key}, begin, Entry(key, value));
      assert values[key := begin] == (values - {key})[key := begin];
      values := values[key := begin];
      return Some(value);
    }

    method Erase(key: K)
      requires Valid()
      modifies this, order, order.footprint
      ensures Valid() && order.footprint == old(order.footprint)
      ensures Contents() == Drop(old(Contents()), key)
    {
      hide List.Valid, Indexed, DistinctKeys;
      IndexedMeaning(order.nodes, order.items, values);
      if key in values {
        ghost var at :| 0 <= at < |order.items| && order.items[at].key == key;
        IndexedAt(order.nodes, order.items, values, at);
        IndexedRemove(order.nodes, order.items, values, at);
        order.Erase(values[key], at);
        values := values - {key};
      } else {
        DropAbsent(order.items, key);
      }
    }
  }
}

/** Facts about sequences and finite sets used by the other modules. */
module Sequences {

  ghost predicate Distinct<T(!new)>(s: seq<T>) {
    forall i, j :: 0 <= i < j < |s| ==> s[i] != s[j]
  }

  /** The first `n` elements of `s`, or all of `s` when it is shorter. */
  function Take<T>(s: seq<T>, n: nat): seq<T> {
    if |s| <= n then s else s[..n]
  }

  ghost function Elements<T>(s: seq<T>): set<T> {
    set x | x in s
  }

  function Concat<T>(parts: seq<seq<T>>): seq<T> {
    if parts == [] then [] else Concat(parts[..|parts| - 1]) + parts[|parts| - 1]
  }

  lemma {:induction false} DistinctCardinality<T>(s: seq<T>)
    requires forall i, j :: 0 <= i < j < |s| ==> s[i] != s[j]
    ensures |Elements(s)| == |s|
  {
    if s == [] {
      assert Elements(s) == {};
    } else {
      var front, last := s[..|s| - 1], s[|s| - 1];
      DistinctCardinality(front);
      assert Elements(s) == Elements(front) + {last};
      assert last !in Elements(front);
    }
  }

  /** A prefix of a concatenation's parts concatenates to a prefix; one more part appends it. */
  lemma {:induction false} ConcatStep<T>(parts: seq<seq<T>>, j: nat)
    requires j < |parts|
    ensures Concat(parts[..j + 1]) == Concat(parts[..j]) + parts[j]
  {
    assert parts[..j + 1][..j] == parts[..j];
  }

  lemma {:induction false} ConcatAppend<T>(a: seq<seq<T>>, b: seq<seq<T>>)
    ensures Concat(a + b) == Concat(a) + Concat(b)
  {
    if b == [] {
      assert a + b == a;
    } else {
      var n := |b| - 1;
      assert (a + b)[..|a| + n] == a + b[..n];
      ConcatAppend(a, b[..n]);
    }
  }

  /** Each part sits in the concatenation right after the parts before it. */
  lemma ConcatSlice<T>(parts: seq<seq<T>>, j: nat)
    requires j < |parts|
    ensures |Concat(parts[..j])| + |parts[j]| == |Concat(parts[..j + 1])| <= |Concat(parts)|
    ensures Concat(parts)[|Concat(parts[..j])|..|Concat(parts[..j + 1])|] == parts[j]
  {
    ConcatStep(parts, j);
    assert parts == parts[..j + 1] + parts[j + 1..];
    ConcatAppend(parts[..j + 1], parts[j + 1..]);
  }

  lemma ConcatExtendLast<T>(parts: seq<seq<T>>, more: seq<T>)
    requires parts != []
    ensures Concat(parts[|parts| - 1 := parts[|parts| - 1] + more]) == Concat(parts) + more
  {
    var n := |parts| - 1;
    assert parts[n := parts[n] + more][..n] == parts[..n];
  }

  lemma ConcatPush<T>(parts: seq<seq<T>>, part: seq<T>)
    ensures Concat(parts + [part]) == Concat(parts) + part
  {
    assert (parts + [part])[..|parts|] == parts;
  }
}

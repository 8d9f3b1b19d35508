/**
 Ascending enumeration of a finite set of lexicographic keys, and the sort the worker applies
 to its snapshots. Tombstones are keyed by (change tick, pod id), lifecycle operations by
 (class, pod id), and plain id snapshots by (0, pod id).
 */
module Ordering {
  type Key = (int, int)

  predicate Less(a: Key, b: Key) {
    a.0 < b.0 || (a.0 == b.0 && a.1 < b.1)
  }

  predicate Ascending(s: seq<Key>) {
    forall i, j | 0 <= i < j < |s| :: Less(s[i], s[j])
  }

  ghost predicate IsLeast(m: Key, keys: set<Key>) {
    m in keys && forall k | k in keys :: k == m || Less(m, k)
  }

  lemma {:induction false} LeastExists(keys: set<Key>)
    requires keys != {}
    ensures exists m :: IsLeast(m, keys)
  {
    var k :| k in keys;
    var rest := keys - {k};
    if rest == {} {
      assert keys == {k};
      assert IsLeast(k, keys);
    } else {
      LeastExists(rest);
      var m :| IsLeast(m, rest);
      assert keys == rest + {k};
      if Less(k, m) {
        assert IsLeast(k, keys);
      } else {
        assert IsLeast(m, keys);
      }
    }
  }

  /** The keys in ascending order. */
  ghost function Enumerate(keys: set<Key>): (s: seq<Key>)
    ensures Ascending(s)
    ensures forall k :: k in s <==> k in keys
    ensures |s| == |keys|
  {
    if keys == {} then []
    else
      LeastExists(keys);
      var m :| IsLeast(m, keys);
      var rest := Enumerate(keys - {m});
      [m] + rest
  }

  lemma SameEmptiness(s: seq<Key>, t: seq<Key>)
    requires forall k :: k in s <==> k in t
    ensures s == [] <==> t == []
  {
    if s != [] {
      assert s[0] in t;
    }
    if t != [] {
      assert t[0] in s;
    }
  }

  /** An ascending sequence is determined by its elements. */
  lemma {:induction false} AscendingUnique(s: seq<Key>, t: seq<Key>)
    requires Ascending(s) && Ascending(t)
    requires forall k :: k in s <==> k in t
    ensures s == t
  {
    SameEmptiness(s, t);
    if s != [] {
      assert s[0] in t;
      var i :| 0 <= i < |t| && t[i] == s[0];
      assert t[0] in s;
      var j :| 0 <= j < |s| && s[j] == t[0];
      assert i == 0 && j == 0;
      forall k
        ensures k in s[1..] <==> k in t[1..]
      {
        assert s == [s[0]] + s[1..] && t == [t[0]] + t[1..];
        if k in s[1..] {
          var a :| 1 <= a < |s| && s[a] == k;
          assert k in t && k != t[0];
        }
        if k in t[1..] {
          var a :| 1 <= a < |t| && t[a] == k;
          assert k in s && k != s[0];
        }
      }
      AscendingUnique(s[1..], t[1..]);
    }
  }

  /** The keys of a sequence of items, position by position. */
  function KeysOf<T>(items: seq<T>, key: T -> Key): (ks: seq<Key>)
    ensures |ks| == |items|
    ensures forall i | 0 <= i < |items| :: ks[i] == key(items[i])
  {
    seq(|items|, i requires 0 <= i < |items| => key(items[i]))
  }

  /** Sorts items whose keys are pairwise distinct: the same items, in ascending order. */
  method Sort<T(==)>(items: seq<T>, key: T -> Key) returns (sorted: seq<T>)
    requires forall i, j | 0 <= i < j < |items| :: key(items[i]) != key(items[j])
    ensures forall x :: x in sorted <==> x in items
    ensures Ascending(KeysOf(sorted, key))
    ensures |sorted| == |items|
  {
    sorted := [];
    for n := 0 to |items|
      invariant |sorted| == n
      invariant forall x :: x in sorted <==> x in items[..n]
      invariant forall i, j | 0 <= i < j < |sorted| :: Less(key(sorted[i]), key(sorted[j]))
    {
      var item := items[n];
      var at := 0;
      while at < |sorted| && Less(key(sorted[at]), key(item))
        invariant at <= |sorted|
        invariant forall i | 0 <= i < at :: Less(key(sorted[i]), key(item))
      {
        at := at + 1;
      }
      forall i | at <= i < |sorted|
        ensures Less(key(item), key(sorted[i]))
      {
        assert sorted[at] in sorted;
        assert sorted[at] in items[..n];
        assert key(sorted[at]) != key(item);
      }
      assert items[..n + 1] == items[..n] + [item];
      var next := sorted[..at] + [item] + sorted[at..];
      assert forall x :: x in next <==> x in sorted || x == item by {
        assert sorted == sorted[..at] + sorted[at..];
      }
      sorted := next;
    }
    assert items[..|items|] == items;
  }
}

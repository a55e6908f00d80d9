/** The cache over a recency array and two dictionaries: it evicts first and inserts afterwards. */
module LRUCaches {
  import opened Options
  import opened RecencyList
  import opened LinkedLists

  /** The three structures hold the entries `s`: the same keys, in this order, with these values. */
  ghost predicate Parallel<Key>(cache: map<Key, Key>, priority: seq<Key>, key2node: map<Key, Node<Key>>,
                                s: seq<Entry<Key, Key>>)
  {
    && |priority| == |s|
    && DistinctKeys(s)
    && key2node.Keys == cache.Keys
    && (forall i :: 0 <= i < |s| ==> priority[i] == s[i].key)
    && EachCached(cache, s)
    && Covered(cache, s)
  }

  ghost predicate EachCached<Key>(cache: map<Key, Key>, s: seq<Entry<Key, Key>>) {
    forall i :: 0 <= i < |s| ==> s[i].key in cache && cache[s[i].key] == s[i].value
  }

  /** The dictionary knows the keys of the entries, and the array lists them. */
  lemma ParallelKeys<Key>(cache: map<Key, Key>, priority: seq<Key>, key2node: map<Key, Node<Key>>,
                          s: seq<Entry<Key, Key>>, key: Key)
    requires Parallel(cache, priority, key2node, s)
    ensures key in cache <==> Has(s, key)
    ensures DistinctKeys(s) && |priority| == |s| && forall i :: 0 <= i < |s| ==> priority[i] == s[i].key
  {
  }

  lemma ParallelWithout<Key>(cache: map<Key, Key>, priority: seq<Key>, key2node: map<Key, Node<Key>>,
                             s: seq<Entry<Key, Key>>, i: nat)
    requires Parallel(cache, priority, key2node, s) && i < |s|
    ensures Parallel(cache - {s[i].key}, DeleteAt(priority, i), key2node - {s[i].key}, Without(s, s[i].key))
  {
    var key, t := s[i].key, Without(s, s[i].key);
    WithoutAt(s, i);
    WithoutDistinct(s, key);
    forall k | k in cache - {key} ensures Has(t, k) {
      assert Has(s, k);
      HasWithout(s, key, k);
    }
  }

  lemma HasWithout<K, V>(s: seq<Entry<K, V>>, k: K, q: K)
    ensures Has(Without(s, k), q) <==> q != k && Has(s, q)
  {
    if q != k && Has(s, q) {
      var i :| 0 <= i < |s| && s[i].key == q;
      assert s[i] in Without(s, k);
    }
  }

  lemma ParallelAdded<Key>(cache: map<Key, Key>, priority: seq<Key>, key2node: map<Key, Node<Key>>,
                           s: seq<Entry<Key, Key>>, key: Key, value: Key, node: Node<Key>)
    requires Parallel(cache, priority, key2node, s) && key !in cache
    ensures Parallel(cache[key := value], [key] + priority, key2node[key := node], [Entry(key, value)] + s)
  {
    var t := [Entry(key, value)] + s;
    assert t[1..] == s;
    forall k | k in cache[key := value] ensures Has(t, k) {
      if k == key {
        assert t[0].key == k;
      } else {
        assert Has(s, k);
        var i :| 0 <= i < |s| && s[i].key == k;
        assert t[i + 1].key == k;
      }
    }
  }

  /** A set once the key, or else the last entry, has gone if it has to. */
  lemma RoomMade<Key>(s: seq<Entry<Key, Key>>, rest: seq<Entry<Key, Key>>, key: Key, val: Key, maxSize: int)
    requires |s| <= Max(1, maxSize)
    requires Has(s, key) ==> rest == Without(s, key) && |rest| == |s| - 1
    requires !Has(s, key) ==> rest == if |s| >= maxSize && |s| > 0 then s[..|s| - 1] else s
    ensures [Entry(key, val)] + rest == EvictThenPut(s, key, val, maxSize) && |rest| + 1 <= Max(1, maxSize)
  {
    hide Has, Without;
  }

  class LRUCache<Key(==)> {
    const maxSize: int
    var cache: map<Key, Key>
    var priority: seq<Key>
    var key2node: map<Key, Node<Key>>
    ghost var contents: seq<Entry<Key, Key>>  // the cached entries, most recently used first

    ghost predicate Valid()
      reads this, key2node.Values
    {
      && Parallel(cache, priority, key2node, contents)
      && (forall k :: k in key2node ==> key2node[k].value == cache[k])
    }

    constructor (maxSize: int)
      ensures Valid() && this.maxSize == maxSize && contents == []
    {
      this.maxSize := maxSize;
      cache, priority, key2node, contents := map[], [], map[], [];
    }

    method Get(key: Key) returns (value: Option<Key>)
      requires Valid() && |contents| <= Max(1, maxSize)
      modifies this
      ensures Valid() && |contents| <= Max(1, maxSize)
      ensures value == Lookup(old(contents), key)
      ensures contents == GetStep(old(contents), key)
    {
      if key !in cache {
        assert Lookup(contents, key) == None;
        return None;
      }
      var val := cache[key];
      assert Has(contents, key);
      ghost var i :| 0 <= i < |contents| && contents[i].key == key;
      LookupAt(contents, i);
      WithoutDistinct(contents, key);
      var _ := Remove(key);
      Insert(key, val);
      return Some(val);
    }

    method Set(key: Key, val: Key)
      requires Valid() && |contents| <= Max(1, maxSize)
      modifies this
      ensures Valid() && |contents| <= Max(1, maxSize)
      ensures contents == EvictThenPut(old(contents), key, val, maxSize)
    {
      ghost var s := contents;
      ParallelKeys(cache, priority, key2node, s, key);
      hide *;
      if key in cache {
        WithoutDistinct(s, key);
        var _ := Remove(key);
      } else if |priority| >= maxSize && |priority| > 0 {
        var keyToRemove := priority[|priority| - 1];
        WithoutAt(s, |s| - 1);
        HasWithout(s, keyToRemove, key);
        var _ := Remove(keyToRemove);
      }
      RoomMade(s, contents, key, val, maxSize);
      Insert(key, val);
    }

    /** `missing` says that the diagnostic for a key absent from `priority` was printed: it never is. */
    method Remove(key: Key) returns (missing: bool)
      requires Valid()
      modifies this
      ensures Valid() && !missing && key !in cache
      ensures contents == Without(old(contents), key)
    {
      missing := false;
      assert key in cache <==> Has(contents, key);
      if key !in key2node {
        WithoutAbsent(contents, key);
        return;
      }
      ghost var s, i := contents, |contents|;
      var index := FirstIndex(key);
      if index >= 0 {
        ParallelWithout(cache, priority, key2node, s, index);
      }
      cache := cache - {key};
      if index >= 0 {
        priority := DeleteAt(priority, index);
      } else {
        missing := true;
      }
      key2node := key2node - {key};
      contents := Without(s, key);
    }

    method FirstIndex(key: Key) returns (index: int)
      ensures -1 <= index < |priority|
      ensures index >= 0 ==> priority[index] == key
      ensures index == -1 ==> key !in priority
    {
      for i := 0 to |priority|
        invariant key !in priority[..i]
      {
        if priority[i] == key {
          return i;
        }
      }
      return -1;
    }

    method Insert(key: Key, val: Key)
      requires Valid() && key !in cache
      modifies this
      ensures Valid() && contents == [Entry(key, val)] + old(contents)
    {
      var newNode := new Node(val);
      ParallelAdded(cache, priority, key2node, contents, key, val, newNode);
      cache := cache[key := val];
      priority := [key] + priority;
      key2node := key2node[key := newNode];
      contents := [Entry(key, val)] + contents;
    }
  }
}

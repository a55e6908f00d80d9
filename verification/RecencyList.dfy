/**
 The abstract value of both LRU caches: the cached entries, most recently used
 first.  This module holds the list operations and one step of each cache;
 runs and their theorems are in `CacheHistory`.
 */
module RecencyList {
  import opened Options

  datatype Entry<K, V> = Entry(key: K, value: V)

  datatype Op<K, V> = Get(key: K) | Put(key: K, value: V)

  ghost predicate DistinctKeys<K, V>(s: seq<Entry<K, V>>) {
    forall i, j :: 0 <= i < j < |s| ==> s[i].key != s[j].key
  }

  predicate Has<K(==), V>(s: seq<Entry<K, V>>, k: K) {
    exists i :: 0 <= i < |s| && s[i].key == k
  }

  function Lookup<K(==), V>(s: seq<Entry<K, V>>, k: K): (r: Option<V>)
    ensures r.Some? <==> Has(s, k)
    ensures r.Some? ==> Entry(k, r.value) in s
  {
    if s == [] then None
    else if s[0].key == k then Some(s[0].value)
    else
      assert forall i :: 0 < i < |s| ==> s[i] == s[1..][i - 1];
      Lookup(s[1..], k)
  }

  function Without<K(==), V>(s: seq<Entry<K, V>>, k: K): (r: seq<Entry<K, V>>)
    ensures |r| <= |s| && !Has(r, k)
    ensures forall i :: 0 <= i < |r| ==> r[i] in s && r[i].key != k
    ensures forall i :: 0 <= i < |s| && s[i].key != k ==> s[i] in r
  {
    if s == [] then []
    else if s[0].key == k then Without(s[1..], k)
    else [s[0]] + Without(s[1..], k)
  }

  /** Every key of a dictionary has an entry in the list. */
  ghost predicate Covered<K, V, U>(cache: map<K, U>, s: seq<Entry<K, V>>) {
    forall k {:trigger Has(s, k)} :: k in cache ==> Has(s, k)
  }

  /** Moves key `k`, with value `v`, to the front. */
  function Touch<K(==), V>(s: seq<Entry<K, V>>, k: K, v: V): seq<Entry<K, V>> {
    [Entry(k, v)] + Without(s, k)
  }

  // One step of either cache.

  function GetStep<K(==), V>(s: seq<Entry<K, V>>, k: K): seq<Entry<K, V>> {
    match Lookup(s, k)
    case None => s
    case Some(v) => Touch(s, k, v)
  }

  /** `LRUCacheNew.put`: the new entry goes in first, then the tail may go. */
  function PutThenEvict<K(==), V>(s: seq<Entry<K, V>>, k: K, v: V, capacity: int): seq<Entry<K, V>> {
    if Has(s, k) then Touch(s, k, v)
    else if |s| + 1 > capacity then ([Entry(k, v)] + s)[..|s|]
    else [Entry(k, v)] + s
  }

  /** `LRUCache.set`: the tail, if there is one, goes first. */
  function EvictThenPut<K(==), V>(s: seq<Entry<K, V>>, k: K, v: V, maxSize: int): seq<Entry<K, V>> {
    if Has(s, k) then Touch(s, k, v)
    else if |s| >= maxSize && s != [] then [Entry(k, v)] + s[..|s| - 1]
    else [Entry(k, v)] + s
  }

  // Facts about the list operations.

  lemma {:induction false} WithoutAppend<K, V>(a: seq<Entry<K, V>>, b: seq<Entry<K, V>>, k: K)
    ensures Without(a + b, k) == Without(a, k) + Without(b, k)
  {
    if a == [] {
      assert a + b == b;
    } else {
      assert (a + b)[1..] == a[1..] + b;
      WithoutAppend(a[1..], b, k);
    }
  }

  lemma {:induction false} WithoutAbsent<K, V>(s: seq<Entry<K, V>>, k: K)
    requires !Has(s, k)
    ensures Without(s, k) == s
  {
    if s != [] {
      assert s[0].key != k;
      forall i | 0 <= i < |s[1..]| ensures s[1..][i].key != k {
        assert s[1..][i] == s[i + 1];
      }
      WithoutAbsent(s[1..], k);
    }
  }

  /** Among distinct keys, removing the key at position `i` removes just that position. */
  lemma {:induction false} WithoutAt<K, V>(s: seq<Entry<K, V>>, i: nat)
    requires DistinctKeys(s) && i < |s|
    ensures Without(s, s[i].key) == s[..i] + s[i + 1..]
  {
    var k, r := s[i].key, s[1..];
    if i == 0 {
      WithoutAbsent(r, k);
    } else {
      assert s[0].key != k;
      WithoutAt(r, i - 1);
      hide DistinctKeys, Has;
      SkipHead(s, i);
    }
  }

  lemma SkipHead<T>(s: seq<T>, i: nat)
    requires 0 < i < |s|
    ensures s[..i] + s[i + 1..] == [s[0]] + (s[1..][..i - 1] + s[1..][i..])
  {
  }

  /** Among distinct keys, the value looked up is the one stored at the key's position. */
  lemma {:induction false} LookupAt<K, V>(s: seq<Entry<K, V>>, i: nat)
    requires DistinctKeys(s) && i < |s|
    ensures Lookup(s, s[i].key) == Some(s[i].value)
  {
    var r := Lookup(s, s[i].key);
    assert Has(s, s[i].key);
    var j :| 0 <= j < |s| && s[j] == Entry(s[i].key, r.value);
    assert j == i;
  }

  lemma {:induction false} WithoutDistinct<K, V>(s: seq<Entry<K, V>>, k: K)
    requires DistinctKeys(s)
    ensures DistinctKeys(Without(s, k))
    ensures |Without(s, k)| == if Has(s, k) then |s| - 1 else |s|
  {
    if i :| 0 <= i < |s| && s[i].key == k {
      WithoutAt(s, i);
    } else {
      WithoutAbsent(s, k);
    }
  }

  lemma TouchDistinct<K, V>(s: seq<Entry<K, V>>, k: K, v: V)
    requires DistinctKeys(s)
    ensures DistinctKeys(Touch(s, k, v))
    ensures |Touch(s, k, v)| == if Has(s, k) then |s| else |s| + 1
  {
    WithoutDistinct(s, k);
  }

  lemma HasTouch<K, V>(s: seq<Entry<K, V>>, k: K, v: V, q: K)
    ensures Has(Touch(s, k, v), q) <==> q == k || Has(s, q)
  {
    var t := Touch(s, k, v);
    assert t[0].key == k;
    if q != k && Has(s, q) {
      var i :| 0 <= i < |s| && s[i].key == q;
      assert s[i] in Without(s, k);
      var j :| 0 <= j < |Without(s, k)| && Without(s, k)[j] == s[i];
      assert t[j + 1].key == q;
    }
    if q != k && Has(t, q) {
      var j :| 0 <= j < |t| && t[j].key == q;
      assert t[j] == Without(s, k)[j - 1];
    }
  }

  // Every step of either cache is a touch followed by a cut.

  function Take<T>(s: seq<T>, n: int): (r: seq<T>)
    ensures r <= s && |r| == if |s| <= n then |s| else Max(n, 0)
  {
    if |s| <= n then s else s[..Max(n, 0)]
  }

  /** Cutting a list before removing a key loses nothing that survives a shorter cut afterwards. */
  lemma {:induction false} CutWithout<K, V>(s: seq<Entry<K, V>>, k: K, c: nat)
    requires DistinctKeys(s) && 1 <= c < |s|
    ensures Take(Without(s[..c], k), c - 1) == Take(Without(s, k), c - 1)
  {
    var r := s[1..];
    assert s[..c][1..] == r[..c - 1];
    if s[0].key == k {
      WithoutAbsent(r, k);
      WithoutAbsent(r[..c - 1], k);
    } else if c > 1 {
      CutWithout(r, k, c - 1);
      hide DistinctKeys, Has;
      TakeCons(s[0], Without(r[..c - 1], k), c - 1);
      TakeCons(s[0], Without(r, k), c - 1);
    }
  }

  /** Cutting a list before touching a key loses nothing that survives the final cut. */
  lemma TakeTouch<K, V>(s: seq<Entry<K, V>>, k: K, v: V, c: int)
    requires DistinctKeys(s)
    ensures Take(Touch(Take(s, c), k, v), c) == Take(Touch(s, k, v), c)
  {
    if 1 <= c < |s| {
      CutWithout(s, k, c);
      hide DistinctKeys, Has, Without;
      TakeCons(Entry(k, v), Without(s[..c], k), c);
      TakeCons(Entry(k, v), Without(s, k), c);
    }
  }

  lemma TakeCons<T>(x: T, s: seq<T>, c: nat)
    requires c >= 1
    ensures Take([x] + s, c) == [x] + Take(s, c - 1)
  {
  }

  /** A put that inserts first and evicts afterwards keeps the `capacity` most recent entries. */
  lemma PutThenEvictIsTouchCut<K, V>(s: seq<Entry<K, V>>, k: K, v: V, capacity: int)
    requires DistinctKeys(s) && |s| <= Max(0, capacity)
    ensures PutThenEvict(s, k, v, capacity) == Take(Touch(s, k, v), capacity)
  {
    TouchDistinct(s, k, v);
    if !Has(s, k) {
      WithoutAbsent(s, k);
    }
  }

  /** A set that evicts first keeps `maxSize` entries, but never fewer than one. */
  lemma EvictThenPutIsTouchCut<K, V>(s: seq<Entry<K, V>>, k: K, v: V, maxSize: int)
    requires DistinctKeys(s) && |s| <= Max(1, maxSize)
    ensures EvictThenPut(s, k, v, maxSize) == Take(Touch(s, k, v), Max(1, maxSize))
  {
    TouchDistinct(s, k, v);
    if !Has(s, k) {
      WithoutAbsent(s, k);
    }
    hide Has, DistinctKeys, Without;
  }
}

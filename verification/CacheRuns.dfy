/** Runs of the two cache objects: each answers a history of calls as its model in `CacheHistory` does. */
module CacheRuns {
  import opened Options
  import opened RecencyList
  import opened CacheHistory
  import opened LRUCacheNews
  import opened LRUCaches

  method ReplayNew<Key(==), Value>(ops: seq<Op<Key, Value>>, capacity: int)
    returns (answers: seq<Option<Value>>, cache: LRUCacheNew<Key, Value>)
    ensures answers == Answers(InsertFirst, ops, capacity)
    ensures cache.Valid() && cache.contents == After(InsertFirst, ops, capacity)
  {
    hide PutThenEvict, GetStep;
    cache := new LRUCacheNew(capacity);
    answers := [];
    for i := 0 to |ops|
      invariant fresh(cache) && fresh(cache.list) && fresh(cache.list.repr)
      invariant cache.Valid() && cache.capacity == capacity
      invariant cache.contents == After(InsertFirst, ops[..i], capacity)
      invariant answers == Answers(InsertFirst, ops[..i], capacity)
    {
      assert ops[..i + 1][..i] == ops[..i];
      match ops[i] {
        case Get(key) =>
          var value := cache.Get(key);
          answers := answers + [value];
        case Put(key, value) =>
          cache.Put(key, value);
          answers := answers + [None];
      }
    }
    assert ops[..|ops|] == ops;
  }

  method Replay<Key(==)>(ops: seq<Op<Key, Key>>, maxSize: int)
    returns (answers: seq<Option<Key>>, cache: LRUCache<Key>)
    ensures answers == Answers(EvictFirst, ops, maxSize)
    ensures cache.Valid() && cache.contents == After(EvictFirst, ops, maxSize)
  {
    hide EvictThenPut, GetStep;
    cache := new LRUCache(maxSize);
    answers := [];
    for i := 0 to |ops|
      invariant fresh(cache) && cache.Valid() && cache.maxSize == maxSize
      invariant |cache.contents| <= Max(1, maxSize)
      invariant cache.contents == After(EvictFirst, ops[..i], maxSize)
      invariant answers == Answers(EvictFirst, ops[..i], maxSize)
    {
      assert ops[..i + 1][..i] == ops[..i];
      match ops[i] {
        case Get(key) =>
          var value := cache.Get(key);
          answers := answers + [value];
        case Put(key, value) =>
          cache.Set(key, value);
          answers := answers + [None];
      }
    }
    assert ops[..|ops|] == ops;
  }

  /** The two objects, given the same history, end alike and answer alike; `LRUCache(m)` keeps at least one entry. */
  method ReplayBoth<Key(==)>(ops: seq<Op<Key, Key>>, maxSize: int)
    returns (newAnswers: seq<Option<Key>>, answers: seq<Option<Key>>)
    ensures newAnswers == answers == Answers(InsertFirst, ops, Max(1, maxSize))
  {
    var newCache: LRUCacheNew<Key, Key>;
    var cache: LRUCache<Key>;
    newAnswers, newCache := ReplayNew(ops, Max(1, maxSize));
    answers, cache := Replay(ops, maxSize);
    CachesAgree(ops, maxSize);
    assert newCache.contents == cache.contents;
  }
}

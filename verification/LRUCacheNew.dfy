/** The cache over a dictionary and a sentinel list: it inserts first and evicts afterwards. */
module LRUCacheNews {
  import opened Options
  import opened RecencyList
  import opened DoublyLinkedLists

  /** `cache` files each node under its own entry's key, and holds nothing else. */
  ghost predicate Filed<Key, Value>(cache: map<Key, Node<Key, Value>>, nodes: seq<Node<Key, Value>>,
                                    s: seq<Entry<Key, Value>>)
  {
    && |nodes| == |s| == |cache|
    && DistinctKeys(s)
    && EachFiled(cache, nodes, s)
    && Covered(cache, s)
  }

  ghost predicate EachFiled<Key, Value>(cache: map<Key, Node<Key, Value>>, nodes: seq<Node<Key, Value>>,
                                        s: seq<Entry<Key, Value>>)
    requires |nodes| == |s|
  {
    forall i :: 0 <= i < |s| ==> s[i].key in cache && cache[s[i].key] == nodes[i]
  }

  /** The nodes carry, in order, the entries `s`. */
  ghost predicate Carry<Key, Value>(nodes: seq<Node<Key, Value>>, s: seq<Entry<Key, Value>>)
    requires |nodes| == |s|
    reads nodes`key, nodes`value
  {
    forall i :: 0 <= i < |s| ==> nodes[i].key == Some(s[i].key) && nodes[i].value == Some(s[i].value)
  }

  /** Among distinct keys, touching the key at `i` moves that position to the front. */
  lemma TouchAt<Key, Value>(s: seq<Entry<Key, Value>>, i: nat, v: Value)
    requires DistinctKeys(s) && i < |s|
    ensures Touch(s, s[i].key, v) == ToFront(s, i)[0 := Entry(s[i].key, v)]
  {
    WithoutAt(s, i);
  }

  /** Moving node `i` to the front, with value `v`, is a touch of its key. */
  lemma FiledMoved<Key, Value>(cache: map<Key, Node<Key, Value>>, nodes: seq<Node<Key, Value>>,
                               s: seq<Entry<Key, Value>>, i: nat, v: Value)
    requires Filed(cache, nodes, s) && i < |s|
    ensures Filed(cache, ToFront(nodes, i), ToFront(s, i)[0 := Entry(s[i].key, v)])
  {
    var t := ToFront(s, i)[0 := Entry(s[i].key, v)];
    EachFiledMoved(cache, nodes, s, i, v);
    TouchDistinct(s, s[i].key, v);
    TouchAt(s, i, v);
    forall k | k in cache ensures Has(t, k) {
      assert Has(s, k);
      HasTouch(s, s[i].key, v, k);
    }
  }

  lemma EachFiledMoved<Key, Value>(cache: map<Key, Node<Key, Value>>, nodes: seq<Node<Key, Value>>,
                                   s: seq<Entry<Key, Value>>, i: nat, v: Value)
    requires |nodes| == |s| && EachFiled(cache, nodes, s) && i < |s|
    ensures EachFiled(cache, ToFront(nodes, i), ToFront(s, i)[0 := Entry(s[i].key, v)])
  {
    var t := ToFront(s, i)[0 := Entry(s[i].key, v)];
    assert forall j :: 0 <= j < |t| ==> t[j].key == s[FrontIndex(i, j)].key;
  }

  /** The place of a filed key, and what touching it does to the size of the list. */
  lemma Locate<Key, Value>(cache: map<Key, Node<Key, Value>>, nodes: seq<Node<Key, Value>>,
                           s: seq<Entry<Key, Value>>, key: Key) returns (i: nat)
    requires Filed(cache, nodes, s) && key in cache
    ensures i < |s| && s[i].key == key && nodes[i] == cache[key]
    ensures Lookup(s, key) == Some(s[i].value)
    ensures |Without(s, key)| == |s| - 1
  {
    assert Has(s, key);
    i :| 0 <= i < |s| && s[i].key == key;
    LookupAt(s, i);
    WithoutDistinct(s, key);
  }

  lemma CarryMoved<Key, Value>(nodes: seq<Node<Key, Value>>, s: seq<Entry<Key, Value>>, i: nat, v: Value)
    requires |nodes| == |s| && i < |s| && Carry(nodes, s[i := Entry(s[i].key, v)])
    ensures Carry(ToFront(nodes, i), ToFront(s, i)[0 := Entry(s[i].key, v)])
  {
    var t, u := ToFront(s, i)[0 := Entry(s[i].key, v)], s[i := Entry(s[i].key, v)];
    assert forall j :: 0 <= j < |t| ==> t[j] == u[FrontIndex(i, j)];
  }

  /** A new node in front, under a new key, adds its entry in front. */
  lemma FiledAdded<Key, Value>(cache: map<Key, Node<Key, Value>>, nodes: seq<Node<Key, Value>>,
                               s: seq<Entry<Key, Value>>, e: Entry<Key, Value>, node: Node<Key, Value>)
    requires Filed(cache, nodes, s) && e.key !in cache
    ensures !Has(s, e.key)
    ensures Filed(cache[e.key := node], [node] + nodes, [e] + s)
  {
    var t := [e] + s;
    forall k | k in cache ensures Has(t, k) {
      assert Has(s, k);
      var i :| 0 <= i < |s| && s[i].key == k;
      assert t[i + 1].key == k;
    }
    assert t[0].key == e.key;
  }

  /** Dropping the last node and its key drops the last entry. */
  lemma FiledWithoutLast<Key, Value>(cache: map<Key, Node<Key, Value>>, nodes: seq<Node<Key, Value>>,
                                     s: seq<Entry<Key, Value>>)
    requires Filed(cache, nodes, s) && s != []
    ensures Filed(cache - {s[|s| - 1].key}, nodes[..|s| - 1], s[..|s| - 1])
  {
    var last, t := s[|s| - 1].key, s[..|s| - 1];
    var rest := cache - {last};
    assert cache.Keys == rest.Keys + {last};
    forall k | k in rest ensures Has(t, k) {
      assert Has(s, k);
      var i :| 0 <= i < |s| && s[i].key == k;
      assert t[i].key == k;
    }
  }

  class LRUCacheNew<Key(==), Value> {
    const capacity: int
    var cache: map<Key, Node<Key, Value>>
    const list: DoublyLinkedList<Key, Value>
    ghost var contents: seq<Entry<Key, Value>>  // the cached entries, most recently used first

    ghost predicate Valid()
      reads this, list, list.repr
    {
      && list.Valid()
      && Filed(cache, list.Nodes(), contents) && Carry(list.Nodes(), contents)
      && |contents| <= Max(0, capacity)
    }

    constructor (capacity: int)
      ensures Valid() && this.capacity == capacity && contents == []
      ensures fresh(list) && fresh(list.repr)
    {
      this.capacity := capacity;
      cache := map[];
      list := new DoublyLinkedList<Key, Value>();
      contents := [];
    }

    /** What `get` and `put` do with a node they found: node `i`, its value now `v`, goes to the front. */
    method MoveToHead(node: Node<Key, Value>, ghost s: seq<Entry<Key, Value>>, ghost i: nat, ghost v: Value)
      requires list.Valid() && Filed(cache, list.Nodes(), s)
      requires i < |s| && list.Nodes()[i] == node && Carry(list.Nodes(), s[i := Entry(s[i].key, v)])
      modifies list, list.repr`next, list.repr`prev
      ensures list.Valid() && list.repr == old(list.repr)
      ensures Filed(cache, list.Nodes(), Touch(s, s[i].key, v))
      ensures Carry(list.Nodes(), Touch(s, s[i].key, v))
    {
      ghost var nodes := list.Nodes();
      list.MoveToHead(node, i);
      TouchAt(s, i, v);
      FiledMoved(cache, nodes, s, i, v);
      CarryMoved(nodes, s, i, v);
    }

    /** The update inside `put`: node `i` takes the new value and goes to the front. */
    method Replace(node: Node<Key, Value>, ghost s: seq<Entry<Key, Value>>, ghost i: nat, value: Value)
      requires list.Valid() && Filed(cache, list.Nodes(), s) && Carry(list.Nodes(), s)
      requires i < |s| && list.Nodes()[i] == node
      modifies list, list.repr
      ensures list.Valid() && list.repr == old(list.repr)
      ensures Filed(cache, list.Nodes(), Touch(s, s[i].key, value))
      ensures Carry(list.Nodes(), Touch(s, s[i].key, value))
    {
      node.value := Some(value);
      MoveToHead(node, s, i, value);
    }

    /** The insertion inside `put`: a new node under a new key, in front. */
    method AddToHead(key: Key, value: Value, ghost s: seq<Entry<Key, Value>>)
      requires list.Valid() && Filed(cache, list.Nodes(), s) && Carry(list.Nodes(), s) && key !in cache
      modifies this`cache, list, list.repr`next, list.repr`prev
      ensures list.Valid() && fresh(list.repr - old(list.repr))
      ensures Filed(cache, list.Nodes(), [Entry(key, value)] + s)
      ensures Carry(list.Nodes(), [Entry(key, value)] + s) && !Has(s, key)
    {
      var newNode := new Node(Some(key), Some(value));
      FiledAdded(cache, list.Nodes(), s, Entry(key, value), newNode);
      cache := cache[key := newNode];
      list.AddToHead(newNode);
    }

    /** The eviction inside `put`: the tail node goes, and its key with it. */
    method RemoveTail(ghost s: seq<Entry<Key, Value>>)
      requires list.Valid() && Filed(cache, list.Nodes(), s) && Carry(list.Nodes(), s) && s != []
      modifies this`cache, list, list.repr`next, list.repr`prev
      ensures list.Valid() && list.repr <= old(list.repr)
      ensures Filed(cache, list.Nodes(), s[..|s| - 1]) && Carry(list.Nodes(), s[..|s| - 1])
    {
      FiledWithoutLast(cache, list.Nodes(), s);
      var tailNode := list.RemoveTail();
      if tailNode != null {
        cache := cache - {tailNode.key.value};
      }
    }

    method Get(key: Key) returns (value: Option<Value>)
      requires Valid()
      modifies this`contents, list, list.repr`next, list.repr`prev
      ensures Valid() && list.repr == old(list.repr)
      ensures value == Lookup(old(contents), key)
      ensures contents == GetStep(old(contents), key)
    {
      ghost var s := contents;
      if key in cache {
        var node := cache[key];
        ghost var i := Locate(cache, list.Nodes(), s, key);
        MoveToHead(node, s, i, s[i].value);
        contents := Touch(s, key, s[i].value);
        return node.value;
      }
      return None;
    }

    method Put(key: Key, value: Value)
      requires Valid()
      modifies this`cache, this`contents, list, list.repr
      ensures Valid() && fresh(list.repr - old(list.repr))
      ensures contents == PutThenEvict(old(contents), key, value, capacity)
    {
      ghost var s := contents;
      if key in cache {
        ghost var i := Locate(cache, list.Nodes(), s, key);
        Replace(cache[key], s, i, value);
        contents := Touch(s, key, value);
      } else {
        AddToHead(key, value, s);
        contents := [Entry(key, value)] + s;
        if |cache| > capacity {
          RemoveTail(contents);
          contents := contents[..|s|];
        }
      }
    }
  }
}

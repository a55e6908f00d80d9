/**
 The sentinel list behind `LRUCacheNew`.  `spine` is the ghost sequence of all
 nodes from `head` to `tail`; the links must agree with it in both directions.
 */
module DoublyLinkedLists {
  import opened Options

  /** `s` with the element at `i` moved to the front. */
  function ToFront<T>(s: seq<T>, i: nat): (r: seq<T>)
    requires i < |s|
    ensures |r| == |s|
    ensures forall j :: 0 <= j < |r| ==> r[j] == s[FrontIndex(i, j)]
  {
    [s[i]] + (s[..i] + s[i + 1..])
  }

  /** Where the element at `j` stood before position `i` was moved to the front. */
  function FrontIndex(i: nat, j: nat): (p: nat)
  {
    if j == 0 then i else if j <= i then j - 1 else j
  }

  class Node<Key, Value> {
    var key: Option<Key>
    var value: Option<Value>
    var next: Node?<Key, Value>
    var prev: Node?<Key, Value>

    constructor (key: Option<Key>, value: Option<Value>)
      ensures this.key == key && this.value == value && next == null && prev == null
    {
      this.key, this.value := key, value;
      next, prev := null, null;
    }
  }

  /** The nodes are distinct, and `next` and `prev` lead from each to its neighbours. */
  ghost predicate Linked<Key, Value>(spine: seq<Node<Key, Value>>)
    reads spine`next, spine`prev
  {
    && (forall i, j :: 0 <= i < j < |spine| ==> spine[i] != spine[j])
    && (forall i {:trigger spine[i].next} :: 0 <= i < |spine| - 1 ==> spine[i].next == spine[i + 1])
    && (forall i {:trigger spine[i].prev} :: 0 < i < |spine| ==> spine[i].prev == spine[i - 1])
  }

  /** Linking the neighbours of position `i` to each other leaves a linked spine without it. */
  lemma LinkedWithout<Key, Value>(s: seq<Node<Key, Value>>, i: nat)
    requires 0 < i < |s| - 1 && forall j, k :: 0 <= j < k < |s| ==> s[j] != s[k]
    requires forall j {:trigger s[j].next} :: 0 <= j < |s| - 1 && j != i ==>
               s[j].next == s[if j == i - 1 then i + 1 else j + 1]
    requires forall j {:trigger s[j].prev} :: 0 < j < |s| && j != i ==>
               s[j].prev == s[if j == i + 1 then i - 1 else j - 1]
    ensures Linked(s[..i] + s[i + 1..])
  {
    var r := s[..i] + s[i + 1..];
    assert forall j {:trigger r[j]} :: 0 <= j < |r| ==> r[j] == s[if j < i then j else j + 1];
    forall j {:trigger r[j].next} | 0 <= j < |r| - 1 ensures r[j].next == r[j + 1] {
      assert r[j] == s[if j < i then j else j + 1];
    }
    forall j {:trigger r[j].prev} | 0 < j < |r| ensures r[j].prev == r[j - 1] {
      assert r[j] == s[if j < i then j else j + 1];
    }
  }

  /** The nodes of the spine without position `i`, and what is between the sentinels. */
  lemma Removed<T>(s: seq<T>, i: nat, repr: set<T>)
    requires 0 < i < |s| - 1 && forall j, k :: 0 <= j < k < |s| ==> s[j] != s[k]
    requires forall j :: 0 <= j < |s| ==> s[j] in repr
    ensures var r := s[..i] + s[i + 1..];
            && r[0] == s[0] && r[|r| - 1] == s[|s| - 1]
            && r[1..|r| - 1] == s[1..|s| - 1][..i - 1] + s[1..|s| - 1][i..]
            && s[i] !in r && forall j :: 0 <= j < |r| ==> r[j] in repr - {s[i]}
  {
  }

  class DoublyLinkedList<Key, Value> {
    const head: Node<Key, Value>
    const tail: Node<Key, Value>
    ghost var spine: seq<Node<Key, Value>>
    ghost var repr: set<Node<Key, Value>>

    ghost predicate Valid()
      reads this, repr`next, repr`prev
    {
      && |spine| >= 2 && spine[0] == head && spine[|spine| - 1] == tail
      && (forall i :: 0 <= i < |spine| ==> spine[i] in repr)
      && Linked(spine)
    }

    /** The nodes between the sentinels, most recently added first. */
    ghost function Nodes(): (r: seq<Node<Key, Value>>)
      reads this
      requires |spine| >= 2
      ensures |r| == |spine| - 2
    {
      spine[1..|spine| - 1]
    }

    constructor ()
      ensures Valid() && Nodes() == [] && fresh(repr)
    {
      var h := new Node<Key, Value>(None, None);
      var t := new Node<Key, Value>(None, None);
      head, tail := h, t;
      spine, repr := [h, t], {h, t};
      new;
      head.next := tail;
      tail.prev := head;
    }

    method AddToHead(node: Node<Key, Value>)
      requires Valid() && node !in spine
      modifies this`spine, this`repr, repr`next, repr`prev, node`next, node`prev
      ensures Valid() && Nodes() == [node] + old(Nodes())
      ensures repr == old(repr) + {node}
    {
      ghost var s := spine;
      assert s[0].next == s[1];
      node.next := head.next;
      node.prev := head;
      if head.next != null {
        head.next.prev := node;
      }
      head.next := node;
      spine, repr := [head, node] + s[1..], repr + {node};
      assert forall j :: 2 <= j < |spine| ==> spine[j] == s[j - 1];
    }

    /** Links the neighbours of a node between the sentinels to each other. */
    method Unlink(node: Node<Key, Value>, ghost i: nat)
      requires Valid() && 0 < i < |spine| - 1 && spine[i] == node
      modifies repr`next, repr`prev
      ensures Linked(spine[..i] + spine[i + 1..])
    {
      assert node.prev == spine[i - 1] && node.next == spine[i + 1];
      if node.prev != null {
        node.prev.next := node.next;
      }
      if node.next != null {
        node.next.prev := node.prev;
      }
      LinkedWithout(spine, i);
    }

    /** Unlinks the node at position `i` of the list; the node keeps its own, now stale, links. */
    method RemoveNode(node: Node<Key, Value>, ghost i: nat)
      requires Valid() && i < |Nodes()| && Nodes()[i] == node
      modifies this`spine, this`repr, repr`next, repr`prev
      ensures Valid() && Nodes() == old(Nodes())[..i] + old(Nodes())[i + 1..]
      ensures node !in spine && repr == old(repr) - {node}
    {
      ghost var s := spine;
      Unlink(node, i + 1);
      hide Linked;
      Removed(s, i + 1, repr);
      spine, repr := s[..i + 1] + s[i + 2..], repr - {node};
    }

    method MoveToHead(node: Node<Key, Value>, ghost i: nat)
      requires Valid() && i < |Nodes()| && Nodes()[i] == node
      modifies this`spine, this`repr, repr`next, repr`prev
      ensures Valid() && Nodes() == ToFront(old(Nodes()), i)
      ensures repr == old(repr)
    {
      assert node == spine[i + 1];
      RemoveNode(node, i);
      AddToHead(node);
    }

    method RemoveTail() returns (node: Node?<Key, Value>)
      requires Valid()
      modifies this`spine, this`repr, repr`next, repr`prev
      ensures Valid()
      ensures old(Nodes()) == [] ==> node == null && Nodes() == [] && repr == old(repr)
      ensures old(Nodes()) != [] ==>
                && node == old(Nodes())[|old(Nodes())| - 1]
                && Nodes() == old(Nodes())[..|old(Nodes())| - 1]
                && repr == old(repr) - {node}
    {
      var tailNode := tail.prev;
      if tailNode != null && tailNode != head {
        RemoveNode(tailNode, |Nodes()| - 1);
        return tailNode;
      }
      return null;
    }
  }
}

/**
 The general linked list.  `nodes` is the ghost sequence of nodes along the `next`
 chain; `ForwardValid` ties the chain to it, `Valid` ties the `previous` links too.
 A splice can leave a list forward-valid only, so the operations are specified for
 all forward-valid lists.
 */
module LinkedLists {
  import opened Options

  class Node<T> {
    var value: T
    var next: Node?<T>
    var previous: Node?<T>

    constructor (value: T)
      ensures this.value == value && next == null && previous == null
    {
      this.value := value;
      next, previous := null, null;
    }
  }

  /** `nodes` is the whole `next` chain from `head`; it is finite and never repeats a node. */
  ghost predicate Chain<T>(head: Node?<T>, nodes: seq<Node<T>>)
    reads nodes`next
  {
    && head == NodeOrNull(nodes, 0)
    && Distinct(nodes)
    && (forall i {:trigger nodes[i].next} :: 0 <= i < |nodes| ==> nodes[i].next == NodeOrNull(nodes, i + 1))
  }

  ghost predicate Distinct<T>(s: seq<T>) {
    forall i, j :: 0 <= i < j < |s| ==> s[i] != s[j]
  }

  /** Every `previous` link leads one step back. */
  ghost predicate BackLinked<T>(nodes: seq<Node<T>>)
    reads nodes`previous
  {
    forall i {:trigger nodes[i].previous} :: 0 <= i < |nodes| ==> nodes[i].previous == NodeOrNull(nodes, i - 1)
  }

  /** Every `previous` link leads one step back, but perhaps those of `nodes[lo..hi]`. */
  ghost predicate BackLinkedOutside<T>(nodes: seq<Node<T>>, lo: int, hi: int)
    reads nodes`previous
  {
    forall i {:trigger nodes[i].previous} :: 0 <= i < |nodes| && !(lo <= i < hi) ==>
      nodes[i].previous == NodeOrNull(nodes, i - 1)
  }

  /** The `previous` links of the nodes. */
  ghost function BacksOf<T>(nodes: seq<Node<T>>): (r: seq<Node?<T>>)
    reads nodes`previous
    ensures |r| == |nodes|
    ensures forall i {:trigger r[i]} :: 0 <= i < |r| ==> r[i] == nodes[i].previous
  {
    if nodes == [] then [] else [nodes[0].previous] + BacksOf(nodes[1..])
  }

  lemma BackLinkedIff<T>(nodes: seq<Node<T>>, backs: seq<Node?<T>>)
    requires |backs| == |nodes| && forall i {:trigger backs[i]} :: 0 <= i < |nodes| ==> backs[i] == nodes[i].previous
    ensures BackLinked(nodes)
            <==> forall i {:trigger backs[i]} :: 0 <= i < |nodes| ==> backs[i] == NodeOrNull(nodes, i - 1)
  {
    if BackLinked(nodes) {
      forall i {:trigger backs[i]} | 0 <= i < |nodes| ensures backs[i] == NodeOrNull(nodes, i - 1) {
        assert backs[i] == nodes[i].previous;
      }
    } else {
      var i :| 0 <= i < |nodes| && nodes[i].previous != NodeOrNull(nodes, i - 1);
      assert backs[i] != NodeOrNull(nodes, i - 1);
    }
  }

  /** Following `next` from `head` never leaves `nodes` and never ends. */
  ghost predicate Endless<T>(head: Node?<T>, nodes: seq<Node<T>>)
    reads nodes`next
  {
    && head != null && head in nodes
    && (forall i {:trigger nodes[i].next} :: 0 <= i < |nodes| ==> nodes[i].next != null && nodes[i].next in nodes)
  }

  /** Where `m` steps along `next` lead from `head`, as long as they stay in `nodes`. */
  ghost function Follow<T>(head: Node?<T>, nodes: seq<Node<T>>, m: nat): Node?<T>
    reads nodes`next
  {
    if m == 0 then head
    else
      var n := Follow(head, nodes, m - 1);
      if n != null && n in nodes then n.next else null
  }

  /** However many steps a loop takes that only reads `next`, it is still at a node of an endless list. */
  lemma {:induction false} EndlessReading<T>(head: Node?<T>, nodes: seq<Node<T>>, m: nat)
    requires Endless(head, nodes)
    ensures Follow(head, nodes, m) != null && Follow(head, nodes, m) in nodes
  {
    if m > 0 {
      EndlessReading(head, nodes, m - 1);
      var j :| 0 <= j < |nodes| && nodes[j] == Follow(head, nodes, m - 1);
      assert nodes[j].next != null;
    }
  }

  /** An endless list has no chain. */
  lemma EndlessNoChain<T>(head: Node?<T>, nodes: seq<Node<T>>, chain: seq<Node<T>>)
    requires Endless(head, nodes)
    ensures !Chain(head, chain)
  {
    if Chain(head, chain) {
      EndlessReading(head, nodes, |chain|);
      ChainFollowed(head, nodes, chain, |chain|);
    }
  }

  lemma {:induction false} ChainFollowed<T>(head: Node?<T>, nodes: seq<Node<T>>, chain: seq<Node<T>>, m: nat)
    requires Endless(head, nodes) && Chain(head, chain) && m <= |chain|
    ensures Follow(head, nodes, m) == NodeOrNull(chain, m)
  {
    if m > 0 {
      ChainFollowed(head, nodes, chain, m - 1);
      EndlessReading(head, nodes, m - 1);
      assert chain[m - 1].next == NodeOrNull(chain, m);
    }
  }

  /** `next` leads from `head` through `q` and round again; `previous` leads back, and from the first node nowhere. */
  ghost predicate Circle<T>(head: Node?<T>, q: seq<Node<T>>)
    reads q`next, q`previous
  {
    && q != [] && Distinct(q) && head == q[0] && BackLinked(q)
    && (forall j {:trigger q[j].next} :: 0 <= j < |q| ==> q[j].next == q[if j + 1 < |q| then j + 1 else 0])
  }

  lemma CircleEndless<T>(head: Node?<T>, q: seq<Node<T>>)
    requires Circle(head, q)
    ensures Endless(head, q)
  {
  }

  ghost function Just<T>(n: Node?<T>): set<Node<T>> {
    if n == null then {} else {n}
  }

  ghost function NodeOrNull<T>(nodes: seq<Node<T>>, i: int): Node?<T> {
    if 0 <= i < |nodes| then nodes[i] else null
  }

  function InsertAt<T>(s: seq<T>, i: nat, x: T): (r: seq<T>)
    requires i <= |s|
    ensures |r| == |s| + 1
    ensures forall j {:trigger r[j]} :: 0 <= j < |r| ==> r[j] == if j < i then s[j] else if j == i then x else s[j - 1]
  {
    s[..i] + [x] + s[i..]
  }

  function DeleteAt<T>(s: seq<T>, i: nat): (r: seq<T>)
    requires i < |s|
    ensures |r| == |s| - 1
    ensures forall j {:trigger r[j]} :: 0 <= j < |r| ==> r[j] == if j < i then s[j] else s[j + 1]
  {
    s[..i] + s[i + 1..]
  }

  function SpliceAt<T>(s: seq<T>, i: nat, t: seq<T>): (r: seq<T>)
    requires i <= |s|
    ensures |r| == |s| + |t|
    ensures forall j {:trigger r[j]} :: 0 <= j < |r| ==>
              r[j] == if j < i then s[j] else if j < i + |t| then t[j - i] else s[j - |t|]
  {
    s[..i] + t + s[i..]
  }

  lemma SpliceMembers<T>(s: seq<T>, i: nat, t: seq<T>)
    requires i <= |s|
    ensures forall x <- SpliceAt(s, i, t) :: x in s || x in t
    ensures SpliceAt(s, i, t)[i + |t|..] == s[i..]
    ensures i < |s| ==> SpliceAt(s, i, t)[i + |t|] == s[i] && SpliceAt(s, i, t)[|s| + |t| - 1] == s[|s| - 1]
  {
  }

  function Reversed<T>(s: seq<T>): (r: seq<T>)
    ensures |r| == |s|
    ensures forall j {:trigger r[j]} :: 0 <= j < |r| ==> r[j] == s[|s| - 1 - j]
  {
    seq(|s|, j requires 0 <= j < |s| => s[|s| - 1 - j])
  }

  function MapSeq<T, U>(f: T -> U, s: seq<T>): (r: seq<U>)
    ensures |r| == |s|
    ensures forall i :: 0 <= i < |s| ==> r[i] == f(s[i])
  {
    if s == [] then [] else MapSeq(f, s[..|s| - 1]) + [f(s[|s| - 1])]
  }

  function FilterSeq<T>(p: T -> bool, s: seq<T>): seq<T> {
    if s == [] then []
    else FilterSeq(p, s[..|s| - 1]) + if p(s[|s| - 1]) then [s[|s| - 1]] else []
  }

  /** The places in `s` whose values satisfy `p`, in order. */
  ghost predicate KeptPlaces<T>(p: T -> bool, s: seq<T>, places: seq<nat>) {
    && (forall i, j :: 0 <= i < j < |places| ==> places[i] < places[j])
    && (forall k: nat :: k in places <==> k < |s| && p(s[k]))
  }

  /** Filtering keeps exactly the values that satisfy `p`, each place once, in their order. */
  lemma {:induction false} FilterSeqKeeps<T>(p: T -> bool, s: seq<T>) returns (places: seq<nat>)
    ensures KeptPlaces(p, s, places)
    ensures |FilterSeq(p, s)| == |places|
    ensures forall i :: 0 <= i < |places| ==> places[i] < |s| && FilterSeq(p, s)[i] == s[places[i]]
  {
    places := [];
    if s != [] {
      var last := |s| - 1;
      var before := FilterSeqKeeps(p, s[..last]);
      assert forall k: nat :: k in before <==> k < last && p(s[k]);
      places := before + if p(s[last]) then [last] else [];
    }
  }

  lemma MapSeqNext<T, U>(f: T -> U, s: seq<T>, i: nat)
    requires i < |s|
    ensures MapSeq(f, s[..i + 1]) == MapSeq(f, s[..i]) + [f(s[i])]
  {
    assert s[..i + 1][..i] == s[..i];
  }

  lemma MapSeqEmpty<T, U>(f: T -> U)
    ensures MapSeq(f, []) == []
  {
  }

  lemma FilterSeqEmpty<T>(p: T -> bool)
    ensures FilterSeq(p, []) == []
  {
  }

  lemma FilterSeqNext<T>(p: T -> bool, s: seq<T>, i: nat)
    requires i < |s|
    ensures FilterSeq(p, s[..i + 1]) == FilterSeq(p, s[..i]) + if p(s[i]) then [s[i]] else []
  {
    assert s[..i + 1][..i] == s[..i];
  }

  lemma ReversedTwice<T>(s: seq<T>)
    ensures Reversed(Reversed(s)) == s
  {
  }

  lemma DeleteInserted<T>(s: seq<T>, i: nat, x: T)
    requires i <= |s|
    ensures InsertAt(s, i, x)[i] == x && DeleteAt(InsertAt(s, i, x), i) == s
  {
  }

  ghost function ValuesOf<T>(nodes: seq<Node<T>>): (r: seq<T>)
    reads nodes`value
    ensures |r| == |nodes|
    ensures forall i {:trigger r[i]} :: 0 <= i < |r| ==> r[i] == nodes[i].value
  {
    if nodes == [] then [] else [nodes[0].value] + ValuesOf(nodes[1..])
  }

  lemma ValuesOfInsert<T>(nodes: seq<Node<T>>, i: nat, n: Node<T>)
    requires i <= |nodes|
    ensures ValuesOf(InsertAt(nodes, i, n)) == InsertAt(ValuesOf(nodes), i, n.value)
  {
    var a, b := ValuesOf(InsertAt(nodes, i, n)), InsertAt(ValuesOf(nodes), i, n.value);
    assert forall j :: 0 <= j < |a| ==> a[j] == b[j];
  }

  lemma ValuesOfAppend<T>(s: seq<Node<T>>, t: seq<Node<T>>)
    ensures ValuesOf(s + t) == ValuesOf(s) + ValuesOf(t)
  {
    var a, b := ValuesOf(s + t), ValuesOf(s) + ValuesOf(t);
    assert forall j :: 0 <= j < |a| ==> a[j] == b[j];
  }

  lemma ValuesOfDelete<T>(nodes: seq<Node<T>>, i: nat)
    requires i < |nodes|
    ensures ValuesOf(DeleteAt(nodes, i)) == DeleteAt(ValuesOf(nodes), i)
  {
    var a, b := ValuesOf(DeleteAt(nodes, i)), DeleteAt(ValuesOf(nodes), i);
    assert forall j :: 0 <= j < |a| ==> a[j] == b[j];
  }

  lemma ValuesOfReversed<T>(nodes: seq<Node<T>>)
    ensures ValuesOf(Reversed(nodes)) == Reversed(ValuesOf(nodes))
  {
    var a, b := ValuesOf(Reversed(nodes)), Reversed(ValuesOf(nodes));
    assert forall j :: 0 <= j < |a| ==> a[j] == b[j];
  }

  lemma ReversedValues<T>(nodes: seq<Node<T>>, values: seq<T>)
    requires |values| == |nodes| && forall j {:trigger values[j]} :: 0 <= j < |nodes| ==> values[j] == nodes[j].value
    ensures ValuesOf(Reversed(nodes)) == Reversed(values)
  {
    ValuesOfReversed(nodes);
    assert ValuesOf(nodes) == values;
  }

  lemma ValuesOfSplice<T>(s: seq<Node<T>>, i: nat, t: seq<Node<T>>)
    requires i <= |s|
    ensures ValuesOf(SpliceAt(s, i, t)) == SpliceAt(ValuesOf(s), i, ValuesOf(t))
  {
    var a, b := ValuesOf(SpliceAt(s, i, t)), SpliceAt(ValuesOf(s), i, ValuesOf(t));
    assert forall j :: 0 <= j < |a| ==> a[j] == b[j];
  }

  /** Relinking the neighbours of position `i` to a new node makes it part of the chain. */
  lemma InsertedLinks<T>(s: seq<Node<T>>, i: nat, n: Node<T>)
    requires i <= |s| && Distinct(s) && n !in s
    requires n.next == NodeOrNull(s, i) && (i < |s| ==> s[i].previous == n)
    requires forall j {:trigger s[j].next} :: 0 <= j < |s| ==>
               s[j].next == if j == i - 1 then n else NodeOrNull(s, j + 1)
    ensures Chain(if i == 0 then n else s[0], InsertAt(s, i, n))
    ensures BackLinked(InsertAt(s, i, n)) <==> n.previous == NodeOrNull(s, i - 1) && BackLinkedOutside(s, i, i + 1)
  {
    var r := InsertAt(s, i, n);
    assert r[i] == n && NodeOrNull(r, i - 1) == NodeOrNull(s, i - 1);
    if BackLinked(r) {
      forall j {:trigger s[j].previous} | 0 <= j < |s| && j != i ensures s[j].previous == NodeOrNull(s, j - 1) {
        var k := if j < i then j else j + 1;
        assert r[k] == s[j] && r[k].previous == NodeOrNull(r, k - 1);
      }
    }
  }

  /** A node of the list linked in again further back takes the nodes in between out of the chain. */
  lemma MovedBack<T>(s: seq<Node<T>>, p: nat, i: nat)
    requires p + 1 < i <= |s| && Distinct(s) && s[p].next == NodeOrNull(s, i)
    requires forall j {:trigger s[j].next} :: 0 <= j < |s| && j != p && j != i - 1 ==> s[j].next == NodeOrNull(s, j + 1)
    ensures Chain(s[0], s[..p + 1] + s[i..])
  {
  }

  /** A node of the list linked in again where it is or further to the front makes the chain endless. */
  lemma MovedForward<T>(s: seq<Node<T>>, p: nat, i: nat)
    requires i <= p + 1 <= |s|
    requires s[p].next == if i == p + 1 then s[p] else s[i]
    requires forall j {:trigger s[j].next} :: 0 <= j < p ==> s[j].next == if j == i - 1 then s[p] else s[j + 1]
    ensures Endless(if i == 0 then s[p] else s[0], s[..p + 1])
  {
    var q := s[..p + 1];
    assert q[p] == s[p] && q[0] == s[0];
    forall j {:trigger q[j].next} | 0 <= j < |q| ensures q[j].next != null && q[j].next in q {
      assert q[j] == s[j];
      assert s[j].next == q[if j == p then (if i == p + 1 then p else i) else if j == i - 1 then p else j + 1];
    }
  }

  lemma HeldLinks<T>(s: seq<Node<T>>, p: nat, i: nat)
    requires p < |s| && i <= |s| && Distinct(s)
    requires s[p].next == if i == p + 1 then s[p] else NodeOrNull(s, i)
    requires forall j {:trigger s[j].next} :: 0 <= j < |s| && s[j] != s[p] ==>
               s[j].next == if j == i - 1 then s[p] else NodeOrNull(s, j + 1)
    ensures p + 1 < i ==> Chain(s[0], s[..p + 1] + s[i..])
    ensures i <= p + 1 ==> Endless(if i == 0 then s[p] else s[0], s[..p + 1])
  {
    hide Chain, Endless;
    assert forall j :: 0 <= j < |s| && j != p ==> s[j] != s[p];
    if p + 1 < i {
      MovedBack(s, p, i);
    } else {
      MovedForward(s, p, i);
    }
  }

  /** Relinking the neighbours of position `i` to each other takes its node out of a well-linked chain. */
  lemma DeletedLinks<T>(s: seq<Node<T>>, i: nat)
    requires i < |s| && Distinct(s)
    requires forall j {:trigger s[j].next} :: 0 <= j < |s| && j != i ==>
               s[j].next == NodeOrNull(s, if j == i - 1 then i + 1 else j + 1)
    requires forall j {:trigger s[j].previous} :: 0 <= j < |s| && j != i ==>
               s[j].previous == NodeOrNull(s, if j == i + 1 then i - 1 else j - 1)
    ensures Chain(NodeOrNull(s, if i == 0 then 1 else 0), DeleteAt(s, i)) && BackLinked(DeleteAt(s, i))
  {
  }

  lemma SingleNode<T>(n: Node<T>)
    requires n.next == null && n.previous == null
    ensures Chain(n, [n]) && BackLinked([n])
  {
  }

  /** Where `x` stands first in `s`, or the length of `s`. */
  ghost function Place<T>(s: seq<T>, x: T): (p: nat)
    ensures p <= |s| && (p < |s| ==> s[p] == x) && forall j :: 0 <= j < p ==> s[j] != x
  {
    if s == [] || s[0] == x then 0 else
      assert forall j :: 0 < j < |s| ==> s[j] == s[1..][j - 1];
      1 + Place(s[1..], x)
  }

  /**
   What is left of the chain when the node at `i` is removed by its links: it takes the
   node's `previous` for the one before.  Without one all up to the node goes; an earlier
   one loses all that follows it up to the node; from any other the chain ends at the node.
   */
  ghost function Remains<T>(s: seq<Node<T>>, i: nat, previous: Node?<T>): seq<Node<T>>
    requires i < |s|
  {
    if previous == null then s[i + 1..]
    else
      var p := Place(s, previous);
      if p < i then s[..p + 1] + s[i + 1..] else s[..i + 1]
  }

  /** Removal takes out just the node's position exactly when the node's `previous` is right. */
  lemma RemainsIff<T>(s: seq<Node<T>>, i: nat, previous: Node?<T>)
    requires i < |s| && Distinct(s)
    ensures Remains(s, i, previous) == DeleteAt(s, i) <==> previous == NodeOrNull(s, i - 1)
  {
    var r, d := Remains(s, i, previous), DeleteAt(s, i);
    if previous != null {
      var p := Place(s, previous);
      if p < i {
        assert p < i - 1 ==> |r| < |d|;
      } else if i > 0 {
        assert |r| == i + 1 && r[i] == s[i];
        assert i < |d| ==> d[i] == s[i + 1];
      } else {
        assert r[0] == s[0];
        assert |d| > 0 ==> d[0] == s[1];
      }
    }
  }

  /** The chain after the removal. */
  lemma RemovedChain<T>(s: seq<Node<T>>, i: nat, previous: Node?<T>)
    requires i < |s| && Distinct(s) && s[i].next == null
    requires previous != null && previous != s[i] ==> previous.next == NodeOrNull(s, i + 1)
    requires forall j {:trigger s[j].next} :: 0 <= j < |s| && j != i && s[j] != previous ==>
               s[j].next == NodeOrNull(s, j + 1)
    ensures Chain(if previous == null then NodeOrNull(s, i + 1) else s[0], Remains(s, i, previous))
  {
    var r := Remains(s, i, previous);
    if previous == null {
      assert forall j {:trigger r[j].next} :: 0 <= j < |r| ==> r[j] == s[i + 1 + j];
    } else {
      var p := Place(s, previous);
      assert forall j :: 0 <= j < |s| && j != p ==> s[j] != previous;
      assert forall j {:trigger r[j].next} :: 0 <= j < |r| ==> r[j] == s[if j <= p || p >= i then j else j + i - p];
    }
  }

  /** Its `previous` links, once the follower has the node's own. */
  lemma RemovedBackLinks<T>(s: seq<Node<T>>, i: nat)
    requires i < |s| && (i + 1 < |s| ==> s[i + 1].previous == NodeOrNull(s, i - 1))
    ensures BackLinked(DeleteAt(s, i)) <==> BackLinkedOutside(s, i, i + 2)
  {
    var r := DeleteAt(s, i);
    if BackLinked(r) {
      forall j {:trigger s[j].previous} | 0 <= j < |s| && !(i <= j < i + 2)
        ensures s[j].previous == NodeOrNull(s, j - 1)
      {
        var k := if j < i then j else j - 1;
        assert r[k] == s[j] && r[k].previous == NodeOrNull(r, k - 1);
      }
    }
  }

  ghost predicate Disjoint<T>(s: seq<T>, t: seq<T>) {
    forall i, j :: 0 <= i < |s| && 0 <= j < |t| ==> s[i] != t[j]
  }

  /** Two chains with a node in common end in the same node. */
  lemma {:induction false} SharedEnd<T>(a: Node?<T>, s: seq<Node<T>>, b: Node?<T>, t: seq<Node<T>>, i: nat, j: nat)
    requires Chain(a, s) && Chain(b, t) && i < |s| && j < |t| && s[i] == t[j]
    ensures s[|s| - 1] == t[|t| - 1]
    decreases |s| - i
  {
    assert s[i].next == NodeOrNull(s, i + 1) && t[j].next == NodeOrNull(t, j + 1);
    if i + 1 < |s| {
      SharedEnd(a, s, b, t, i + 1, j + 1);
    }
  }

  /** The last node of a chain is not in an endless one. */
  lemma NotInEndless<T>(a: Node?<T>, s: seq<Node<T>>, b: Node?<T>, t: seq<Node<T>>)
    requires Chain(a, s) && Endless(b, t)
    ensures s != [] ==> s[|s| - 1] !in t
  {
    if s != [] {
      assert s[|s| - 1].next == null;
    }
  }

  /** Linking the end of a chain to an endless one makes it endless. */
  lemma EndlessBehind<T>(s: seq<Node<T>>, b: Node<T>, t: seq<Node<T>>)
    requires Endless(b, t)
    requires forall j {:trigger s[j].next} :: 0 <= j < |s| ==> s[j].next == if j == |s| - 1 then b else s[j + 1]
    ensures Endless(if s == [] then b else s[0], s + t)
  {
    var q := s + t;
    assert forall n :: n in q <==> n in s || n in t;
    forall j {:trigger q[j].next} | 0 <= j < |q| ensures q[j].next != null && q[j].next in q {
      if j < |s| {
        assert q[j] == s[j];
      } else {
        assert q[j] == t[j - |s|] && t[j - |s|].next in t;
      }
    }
  }

  /** The chain after linking the end of one list to the head of another. */
  lemma AppendedLinks<T>(s: seq<Node<T>>, t: seq<Node<T>>)
    requires t != [] && Distinct(s) && Distinct(t) && Disjoint(s, t)
    requires forall j {:trigger s[j].next} :: 0 <= j < |s| ==> s[j].next == if j == |s| - 1 then t[0] else s[j + 1]
    requires forall j {:trigger t[j].next} :: 0 <= j < |t| ==> t[j].next == NodeOrNull(t, j + 1)
    ensures Chain(if s == [] then t[0] else s[0], s + t)
    ensures BackLinked(s + t)
            <==> BackLinked(s) && BackLinkedOutside(t, 0, 1) && t[0].previous == NodeOrNull(s, |s| - 1)
  {
    var r := s + t;
    assert r[|s|] == t[0];
    if BackLinked(r) {
      forall j {:trigger s[j].previous} | 0 <= j < |s| ensures s[j].previous == NodeOrNull(s, j - 1) {
        assert r[j] == s[j] && r[j].previous == NodeOrNull(r, j - 1);
      }
      forall j {:trigger t[j].previous} | 0 < j < |t| ensures t[j].previous == NodeOrNull(t, j - 1) {
        assert r[|s| + j] == t[j] && r[|s| + j].previous == NodeOrNull(r, |s| + j - 1);
      }
    }
  }

  /** Linking the end of one chain to another one that it is part of makes it endless. */
  lemma JoinedEndless<T>(s: seq<Node<T>>, t: seq<Node<T>>)
    requires s != [] && t != [] && s[|s| - 1] == t[|t| - 1]
    requires forall j {:trigger s[j].next} :: 0 <= j < |s| ==> s[j].next == if j == |s| - 1 then t[0] else s[j + 1]
    requires forall j {:trigger t[j].next} :: 0 <= j < |t| ==> t[j].next == if j == |t| - 1 then t[0] else t[j + 1]
    ensures Endless(s[0], s + t)
  {
    var q := s + t;
    assert q[0] == s[0];
    forall j {:trigger q[j].next} | 0 <= j < |q| ensures q[j].next != null && q[j].next in q {
      if j < |s| {
        assert q[j] == s[j];
        assert s[j].next == q[j + 1];
      } else {
        assert q[j] == t[j - |s|];
        assert t[j - |s|].next == q[if j == |q| - 1 then |s| else j + 1];
      }
    }
  }

  /** The same end of two lists linked back to position `i`, and the position before linked to `t`'s head. */
  lemma SplicedRound<T>(s: seq<Node<T>>, i: nat, t: seq<Node<T>>)
    requires 0 < i < |s| && t != [] && s[|s| - 1] == t[|t| - 1]
    requires forall j {:trigger s[j].next} :: 0 <= j < |s| ==>
               s[j].next == if j == |s| - 1 then s[i] else if j == i - 1 then t[0] else s[j + 1]
    requires forall j {:trigger t[j].next} :: 0 <= j < |t| ==> t[j].next == if j == |t| - 1 then s[i] else t[j + 1]
    ensures Endless(t[0], t + s)
  {
    var q := t + s;
    assert q[0] == t[0] && q[|t| + i] == s[i];
    forall j {:trigger q[j].next} | 0 <= j < |q| ensures q[j].next != null && q[j].next in q {
      if j < |t| {
        assert q[j] == t[j];
        assert t[j].next == q[if j == |t| - 1 then |t| + i else j + 1];
      } else {
        assert q[j] == s[j - |t|];
        assert s[j - |t|].next == q[if j == |q| - 1 then |t| + i else if j - |t| == i - 1 then 0 else j + 1];
      }
    }
  }

  /** Linking `s[..i]` to `t` and the end of `t` to `s[i..]` makes one chain, also seen from `t`'s head. */
  lemma SplicedLinks<T>(s: seq<Node<T>>, i: nat, t: seq<Node<T>>)
    requires i <= |s| && t != [] && Distinct(s) && Distinct(t) && Disjoint(s, t)
    requires forall j {:trigger s[j].next} :: 0 <= j < |s| ==>
               s[j].next == if j == i - 1 then t[0] else NodeOrNull(s, j + 1)
    requires forall j {:trigger t[j].next} :: 0 <= j < |t| ==>
               t[j].next == if j == |t| - 1 then NodeOrNull(s, i) else t[j + 1]
    ensures Chain(if i == 0 then t[0] else s[0], SpliceAt(s, i, t))
    ensures Chain(t[0], SpliceAt(s[i..], 0, t))
  {
  }

  /** The same joint seen backwards: it holds only if no node follows it. */
  lemma SplicedBackLinks<T>(s: seq<Node<T>>, i: nat, t: seq<Node<T>>)
    requires i <= |s| && t != []
    requires forall j {:trigger s[j].previous} :: 0 <= j < |s| && j != i ==> s[j].previous == NodeOrNull(s, j - 1)
    requires i < |s| ==> s[i].previous != t[|t| - 1]
    requires forall j {:trigger t[j].previous} :: 0 <= j < |t| ==>
               t[j].previous == if j == 0 then NodeOrNull(s, i - 1) else t[j - 1]
    ensures BackLinked(SpliceAt(s, i, t)) <==> i == |s|
  {
    var r := SpliceAt(s, i, t);
    if i < |s| {
      assert r[i + |t|] == s[i] && r[i + |t|].previous != NodeOrNull(r, i + |t| - 1);
    }
  }

  /** If each node's `previous` is the node that followed it, its `next` decides the rest. */
  lemma ReversedLinks<T>(s: seq<Node<T>>)
    requires Distinct(s)
    requires forall j {:trigger s[j].previous} :: 0 <= j < |s| ==> s[j].previous == NodeOrNull(s, j + 1)
    ensures BackLinked(Reversed(s))
    ensures Chain(NodeOrNull(s, |s| - 1), Reversed(s))
            <==> forall j {:trigger s[j].next} :: 0 <= j < |s| ==> s[j].next == NodeOrNull(s, j - 1)
  {
    var r := Reversed(s);
    if Chain(NodeOrNull(s, |s| - 1), r) {
      forall j {:trigger s[j].next} | 0 <= j < |s| ensures s[j].next == NodeOrNull(s, j - 1) {
        assert r[|s| - 1 - j] == s[j] && r[|s| - 1 - j].next == NodeOrNull(r, |s| - j);
      }
    }
  }

  /** Links that lead one step to the front down to position `i` make the reversed chain. */
  lemma LinkedToFront<T>(s: seq<Node<T>>, i: nat)
    requires i < |s| && Distinct(s)
    requires forall j {:trigger s[j].next} :: i <= j < |s| ==> s[j].next == if j == i then null else s[j - 1]
    ensures Chain(s[|s| - 1], Reversed(s[i..]))
  {
    var r := Reversed(s[i..]);
    assert forall j {:trigger r[j].next} :: 0 <= j < |r| ==> r[j] == s[|s| - 1 - j];
  }

  /** Links that lead one step to the front, and from position `i` to the last node, make a circle. */
  lemma LinkedInCircle<T>(s: seq<Node<T>>, i: nat)
    requires i < |s| && Distinct(s)
    requires forall j {:trigger s[j].next} :: i <= j < |s| ==> s[j].next == s[if j == i then |s| - 1 else j - 1]
    requires forall j {:trigger s[j].previous} :: i <= j < |s| ==> s[j].previous == NodeOrNull(s, j + 1)
    ensures Circle(s[|s| - 1], Reversed(s[i..]))
  {
    var q := Reversed(s[i..]);
    assert forall j {:trigger q[j]} :: 0 <= j < |q| ==> q[j] == s[|s| - 1 - j];
  }

  /** What follows a splice keeps its own `previous` links behind its first node. */
  lemma SplicedAt<T>(s: seq<Node<T>>, t: seq<Node<T>>, i: nat)
    requires i <= |s| && forall j {:trigger s[j].previous} :: i < j < |s| ==> s[j].previous == s[j - 1]
    ensures forall j {:trigger SpliceAt(s, i, t)[j].previous} :: i + |t| < j < |s| + |t| ==>
              SpliceAt(s, i, t)[j].previous == SpliceAt(s, i, t)[j - 1]
  {
    var n := SpliceAt(s, i, t);
    assert forall j {:trigger n[j].previous} :: i + |t| < j < |n| ==> n[j] == s[j - |t|] && n[j - 1] == s[j - |t| - 1];
  }

  /** A place in the list; two places are compared by their tags alone. */
  datatype LinkedListIndex<T> = LinkedListIndex(node: Node?<T>, tag: int) {
    predicate Same(other: LinkedListIndex<T>) {
      tag == other.tag
    }
  }

  /** Which node a place holds does not count, only how many steps lead to it. */
  lemma SamePlaceIff<T>(n: Node?<T>, j: int, m: Node?<T>, k: int)
    ensures LinkedListIndex(n, j).Same(LinkedListIndex(m, k)) <==> j == k
  {
  }

  class LinkedList<T> {
    var head: Node?<T>
    ghost var nodes: seq<Node<T>>

    ghost predicate ForwardValid()
      reads this, nodes`next
    {
      Chain(head, nodes)
    }

    ghost predicate Valid()
      reads this, nodes`next, nodes`previous
    {
      Chain(head, nodes) && BackLinked(nodes)
    }

    ghost function Values(): seq<T>
      reads this, nodes`value
    {
      ValuesOf(nodes)
    }

    constructor ()
      ensures Valid() && nodes == []
    {
      head, nodes := null, [];
    }

    method Last() returns (last: Node?<T>)
      requires ForwardValid()
      ensures last == NodeOrNull(nodes, |nodes| - 1)
    {
      if head == null {
        return null;
      }
      var node: Node<T> := head;
      ghost var i := 0;
      while node.next != null
        invariant 0 <= i < |nodes| && node == nodes[i]
        decreases |nodes| - i
      {
        node := node.next;
        i := i + 1;
      }
      return node;
    }

    predicate IsEmpty()
      reads this
    {
      head == null
    }

    method Count() returns (count: int)
      requires ForwardValid()
      ensures count == |nodes|
    {
      if head == null {
        return 0;
      }
      var node: Node<T> := head;
      count := 1;
      while node.next != null
        invariant 1 <= count <= |nodes| && node == nodes[count - 1]
        decreases |nodes| - count
      {
        node := node.next;
        count := count + 1;
      }
    }

    /** The node at `index`; the source stops the program when there is none. */
    method NodeAt(index: int) returns (found: Node<T>)
      requires ForwardValid() && 0 <= index < |nodes|
      ensures found == nodes[index]
    {
      if index == 0 {
        return head;
      }
      var node := head.next;
      for k := 1 to index
        invariant node == nodes[k]
      {
        node := node.next;
        if node == null {
          break;
        }
      }
      return node;
    }

    /** The links that appending a node sets. */
    method LinkLast(node: Node<T>)
      requires ForwardValid()
      modifies `head, Just(NodeOrNull(nodes, |nodes| - 1))`next, node`previous
      ensures head == if nodes == [] then node else old(head)
      ensures nodes != [] ==> node.previous == nodes[|nodes| - 1]
      ensures nodes == [] ==> node.previous == old(node.previous)
      ensures forall j {:trigger nodes[j].next} :: 0 <= j < |nodes| ==>
                nodes[j].next == if j == |nodes| - 1 then node else nodes[j + 1]
    {
      var lastNode := Last();
      if lastNode != null {
        node.previous := lastNode;
        lastNode.next := node;
      } else {
        head := node;
      }
    }

    /**
     Links `node` itself, not a copy, after the last node; the chain `t` behind it comes
     along.  If that chain already ends in the receiver's last node, or never ended, following
     the receiver never ends.
     */
    method AppendNode(node: Node<T>, ghost t: seq<Node<T>>)
      requires ForwardValid() && (Chain(node, t) || Endless(node, t))
      modifies this, nodes`next, node`previous
      ensures old(Chain(node, t)) && Disjoint(old(nodes), t) ==>
                && ForwardValid() && nodes == old(nodes) + t
                && Values() == old(Values()) + ValuesOf(t)
                && (Valid() <==> old(Valid() && BackLinkedOutside(t, 0, 1) && (nodes != [] || node.previous == null)))
      ensures old(Endless(node, t)) || !Disjoint(old(nodes), t) ==> Endless(head, old(nodes) + t)
    {
      hide ValuesOf, Endless;
      ghost var s, endless := nodes, Endless(node, t);
      ValuesOfAppend(s, t);
      if endless {
        EndlessNoChain(node, t, t);
        NotInEndless(head, s, node, t);
      } else if i, j :| 0 <= i < |s| && 0 <= j < |t| && s[i] == t[j] {
        SharedEnd(head, s, node, t, i, j);
      }
      LinkLast(node);
      if endless {
        hide Chain, Disjoint;
        EndlessBehind(s, node, t);
      } else if Disjoint(s, t) {
        AppendedLinks(s, t);
        nodes := s + t;
      } else {
        JoinedEndless(s, t);
      }
    }

    method Append(value: T) returns (ghost newNode: Node<T>)
      requires ForwardValid()
      modifies this, nodes`next
      ensures ForwardValid() && (Valid() <==> old(Valid()))
      ensures fresh(newNode) && nodes == old(nodes) + [newNode] && Values() == old(Values()) + [value]
    {
      var node := new Node(value);
      AppendNode(node, [node]);
      newNode := node;
    }

    /** The links that an insertion sets; `newNode` may be any node. */
    method LinkIn(newNode: Node<T>, index: int)
      requires ForwardValid() && 0 <= index <= |nodes|
      modifies `head, nodes`next, nodes`previous, newNode`next, newNode`previous
      ensures head == if index == 0 then newNode else old(head)
      ensures newNode.next == if index > 0 && nodes[index - 1] == newNode then newNode else NodeOrNull(nodes, index)
      ensures forall j {:trigger nodes[j].next} :: 0 <= j < |nodes| && nodes[j] != newNode ==>
                nodes[j].next == if j == index - 1 then newNode else NodeOrNull(nodes, j + 1)
      ensures newNode !in nodes ==>
                && newNode.previous == (if index == 0 then old(newNode.previous) else nodes[index - 1])
                && (index < |nodes| ==> nodes[index].previous == newNode)
                && forall j {:trigger nodes[j].previous} {:trigger old(nodes[j].previous)} ::
                     0 <= j < |nodes| && j != index ==> nodes[j].previous == old(nodes[j].previous)
    {
      if index == 0 {
        newNode.next := head;
        if head != null {
          head.previous := newNode;
        }
        head := newNode;
      } else {
        var prev := NodeAt(index - 1);
        var next := prev.next;
        newNode.previous := prev;
        newNode.next := next;
        if next != null {
          next.previous := newNode;
        }
        prev.next := newNode;
      }
    }

    /** Inserts `newNode` itself so that it ends up at `index`, unless the list holds it already. */
    method InsertNode(newNode: Node<T>, index: int)
      requires ForwardValid() && 0 <= index <= |nodes|
      modifies this, nodes`next, nodes`previous, newNode`next, newNode`previous
      ensures newNode !in old(nodes) ==>
                && ForwardValid() && nodes == InsertAt(old(nodes), index, newNode)
                && (Valid() <==> old(BackLinkedOutside(nodes, index, index + 1)
                                     && (index == 0 ==> newNode.previous == null)))
                && newNode.previous == (if index == 0 then old(newNode.previous) else old(nodes)[index - 1])
                && forall j {:trigger old(nodes)[j].previous} :: 0 <= j < |old(nodes)| && j != index ==>
                     old(nodes)[j].previous == old(nodes[j].previous)
      ensures newNode in old(nodes) ==>
                var p := Place(old(nodes), newNode);
                if p + 1 < index then ForwardValid() && nodes == old(nodes)[..p + 1] + old(nodes)[index..]
                else Endless(head, old(nodes)[..p + 1])
    {
      hide Endless, BackLinked;
      ghost var s, p := nodes, Place(nodes, newNode);
      LinkIn(newNode, index);
      if p == |s| {
        InsertedLinks(s, index, newNode);
        assert BackLinkedOutside(s, index, index + 1) <==> old(BackLinkedOutside(nodes, index, index + 1)) by {
          assert forall j {:trigger s[j].previous} {:trigger old(s[j].previous)} :: 0 <= j < |s| && j != index ==>
              s[j].previous == old(s[j].previous);
        }
        nodes := InsertAt(s, index, newNode);
      } else {
        HeldLinks(s, p, index);
        nodes := if p + 1 < index then s[..p + 1] + s[index..] else s;
      }
    }

    method Insert(value: T, index: int) returns (ghost newNode: Node<T>)
      requires ForwardValid() && 0 <= index <= |nodes|
      modifies this, nodes`next, nodes`previous
      ensures ForwardValid() && (Valid() <==> old(BackLinkedOutside(nodes, index, index + 1)))
      ensures fresh(newNode) && newNode.value == value && nodes == InsertAt(old(nodes), index, newNode)
      ensures Values() == InsertAt(old(Values()), index, value)
      ensures newNode.previous == if index == 0 then null else old(nodes)[index - 1]
      ensures forall j {:trigger old(nodes)[j].previous} :: 0 <= j < |old(nodes)| && j != index ==>
                old(nodes)[j].previous == old(nodes[j].previous)
    {
      hide ValuesOf, BackLinked, BackLinkedOutside, Chain, InsertAt;
      var node := new Node(value);
      ValuesOfInsert(nodes, index, node);
      InsertNode(node, index);
      newNode := node;
    }

    method RemoveAll()
      modifies this
      ensures Valid() && nodes == []
    {
      head, nodes := null, [];
    }

    /** The links that removing a node sets. */
    method Unlink(node: Node<T>)
      modifies `head, node`next, node`previous, Just(node.previous)`next, Just(node.next)`previous
      ensures head == if old(node.previous) == null then old(node.next) else old(head)
      ensures node.next == null && node.previous == null
      ensures old(node.previous) != null && old(node.previous) != node ==> old(node.previous).next == old(node.next)
      ensures old(node.next) != null && old(node.next) != node ==> old(node.next).previous == old(node.previous)
    {
      var prev := node.previous;
      var next := node.next;
      if prev != null {
        prev.next := next;
      } else {
        head := next;
      }
      if next != null {
        next.previous := prev;
      }
      node.previous := null;
      node.next := null;
    }

    /**
     Unlinks `node`, which stands at position `i`, and clears its links.  It trusts the node's
     `previous`, and takes out just that node exactly when that is right.
     */
    method RemoveNode(node: Node<T>, ghost i: nat) returns (value: T)
      requires ForwardValid() && i < |nodes| && nodes[i] == node
      modifies this, nodes`next, nodes`previous, Just(node.previous)`next
      ensures ForwardValid() && nodes == Remains(old(nodes), i, old(node.previous))
      ensures nodes == DeleteAt(old(nodes), i) <==> old(node.previous) == NodeOrNull(old(nodes), i - 1)
      ensures nodes == DeleteAt(old(nodes), i) ==>
                && Values() == DeleteAt(old(Values()), i)
                && (Valid() <==> old(BackLinkedOutside(nodes, i, i + 2)))
      ensures value == node.value && node.next == null && node.previous == null
      ensures forall j {:trigger old(nodes)[j].previous} :: 0 <= j < |old(nodes)| && j != i ==>
                old(nodes)[j].previous == if j == i + 1 then old(node.previous) else old(nodes[j].previous)
    {
      hide ValuesOf, Remains;
      ghost var s, prev := nodes, node.previous;
      ValuesOfDelete(s, i);
      RemainsIff(s, i, prev);
      Unlink(node);
      RemovedChain(s, i, prev);
      if prev == NodeOrNull(s, i - 1) {
        RemovedBackLinks(s, i);
        assert BackLinkedOutside(s, i, i + 2) <==> old(BackLinkedOutside(nodes, i, i + 2)) by {
          assert forall j {:trigger s[j].previous} {:trigger old(s[j].previous)} ::
              0 <= j < |s| && !(i <= j < i + 2) ==> s[j].previous == old(s[j].previous);
        }
      }
      nodes := Remains(s, i, prev);
      return node.value;
    }

    /**
     Removing a node that stands at position `i` of another list unlinks it there, but if it is
     the first one, the receiver gets the rest of the other list in place of its own nodes.
     */
    method RemoveForeignNode(node: Node<T>, other: LinkedList<T>, ghost i: nat) returns (value: T)
      requires Valid() && other.Valid() && Disjoint(nodes, other.nodes) && other != this
      requires i < |other.nodes| && other.nodes[i] == node
      modifies this, other`nodes, other.nodes`next, other.nodes`previous
      ensures Valid() && other.Valid() && value == node.value
      ensures i > 0 ==> nodes == old(nodes) && other.nodes == DeleteAt(old(other.nodes), i)
      ensures i == 0 ==> nodes == old(other.nodes)[1..] && other.nodes == [node]
    {
      ghost var s := other.nodes;
      UnlinkFrom(node, s, i);
      assert i > 0 ==> other.head == s[0];
      hide Chain, BackLinked;
      if i > 0 {
        other.nodes := DeleteAt(s, i);
      } else {
        nodes, other.nodes := DeleteAt(s, 0), [node];
        SingleNode(node);
      }
      return node.value;
    }

    /** The chain `s` that the removed node belongs to, whichever list that is. */
    method UnlinkFrom(node: Node<T>, ghost s: seq<Node<T>>, ghost i: nat)
      requires i < |s| && s[i] == node && Chain(s[0], s) && BackLinked(s)
      modifies `head, s`next, s`previous
      ensures head == if i == 0 then NodeOrNull(s, 1) else old(head)
      ensures Chain(NodeOrNull(s, if i == 0 then 1 else 0), DeleteAt(s, i)) && BackLinked(DeleteAt(s, i))
      ensures node.next == null && node.previous == null
    {
      Unlink(node);
      DeletedLinks(s, i);
    }

    method RemoveLast() returns (value: T)
      requires ForwardValid() && nodes != []
      modifies this, nodes`next, nodes`previous, Just(nodes[|nodes| - 1].previous)`next
      ensures ForwardValid() && nodes == Remains(old(nodes), |old(nodes)| - 1, old(nodes[|nodes| - 1].previous))
      ensures old(Valid()) ==> Valid() && nodes == old(nodes)[..|old(nodes)| - 1]
      ensures old(Valid()) ==> Values() == old(Values())[..|old(nodes)| - 1]
      ensures value == old(Values())[|old(nodes)| - 1]
    {
      hide Remains;
      var last := Last();
      value := RemoveNode(last, |nodes| - 1);
    }

    method RemoveAt(index: int) returns (value: T)
      requires ForwardValid() && 0 <= index < |nodes|
      modifies this, nodes`next, nodes`previous, Just(nodes[index].previous)`next
      ensures ForwardValid() && nodes == Remains(old(nodes), index, old(nodes[index].previous))
      ensures nodes == DeleteAt(old(nodes), index) <==> old(nodes[index].previous) == NodeOrNull(old(nodes), index - 1)
      ensures old(Valid()) ==> Valid() && Values() == DeleteAt(old(Values()), index)
      ensures value == old(Values())[index]
      ensures forall j {:trigger old(nodes)[j].previous} :: 0 <= j < |old(nodes)| && j != index ==>
                old(nodes)[j].previous
                == if j == index + 1 then old(nodes[index].previous) else old(nodes[j].previous)
    {
      hide Remains;
      var node := NodeAt(index);
      value := RemoveNode(node, index);
    }

    /** Appends copies of the values of `list`; it ends because the two lists share no node. */
    method AppendList(list: LinkedList<T>)
      requires ForwardValid() && list.ForwardValid() && Disjoint(nodes, list.nodes)
      modifies this, nodes`next
      ensures ForwardValid() && (Valid() <==> old(Valid())) && Values() == old(Values()) + old(list.Values())
      ensures old(nodes) <= nodes && forall i :: |old(nodes)| <= i < |nodes| ==> fresh(nodes[i])
      ensures list != this ==> list.ForwardValid() && list.Values() == old(list.Values())
    {
      hide ValuesOf, BackLinked;
      var nodeToCopy := list.head;
      ghost var s, t, k := nodes, list.nodes, 0;
      ghost var copied := list.Values();
      while nodeToCopy != null
        invariant ForwardValid() && (Valid() <==> old(Valid()))
        invariant 0 <= k <= |t| && nodeToCopy == NodeOrNull(t, k)
        invariant s <= nodes && forall i :: |s| <= i < |nodes| ==> fresh(nodes[i])
        invariant forall j {:trigger t[j].next} :: 0 <= j < |t| ==> t[j].next == NodeOrNull(t, j + 1)
        invariant Values() == old(Values()) + copied[..k]
        invariant list != this || t == []
        decreases |t| - k
      {
        ghost var _ := Append(nodeToCopy.value);
        nodeToCopy := nodeToCopy.next;
        k := k + 1;
      }
    }

    /**
     Any number of rounds of that loop over a list that shares a node with the receiver: there
     is always a node left to copy, because the list grows with the receiver.
     */
    method AppendListRounds(list: LinkedList<T>, rounds: nat) returns (nodeToCopy: Node?<T>)
      requires ForwardValid() && list.ForwardValid() && !Disjoint(nodes, list.nodes)
      modifies this, list`nodes, nodes`next
      ensures nodeToCopy != null && |nodes| == |old(nodes)| + rounds
    {
      hide ValuesOf, BackLinked;
      nodeToCopy := list.head;
      ghost var s, t := nodes, list.nodes;
      for k := 0 to rounds
        invariant ForwardValid() && list.ForwardValid() && !Disjoint(nodes, list.nodes)
        invariant |nodes| == |s| + k && |list.nodes| == |t| + k && k < |list.nodes| && nodeToCopy == list.nodes[k]
        invariant s <= nodes && forall j :: |s| <= j < |nodes| ==> fresh(nodes[j])
      {
        AppendShared(list, nodeToCopy.value);
        assert list.nodes[k] == nodeToCopy && list.nodes[k].next == list.nodes[k + 1];
        nodeToCopy := nodeToCopy.next;
      }
    }

    /** Appending a value to the receiver also appends it to a list with a common node. */
    method AppendShared(list: LinkedList<T>, value: T)
      requires ForwardValid() && list.ForwardValid() && !Disjoint(nodes, list.nodes)
      modifies this, list`nodes, nodes`next
      ensures ForwardValid() && list.ForwardValid() && !Disjoint(nodes, list.nodes)
      ensures nodes != [] && fresh(nodes[|nodes| - 1]) && nodes == old(nodes) + [nodes[|nodes| - 1]]
      ensures list.nodes == old(list.nodes) + [nodes[|nodes| - 1]]
    {
      hide ValuesOf, BackLinked;
      ghost var s, t := nodes, list.nodes;
      ghost var i, j :| 0 <= i < |s| && 0 <= j < |t| && s[i] == t[j];
      SharedEnd(head, s, list.head, t, i, j);
      ghost var n := Append(value);
      if list != this {
        forall j {:trigger t[j].next} | 0 <= j < |t| ensures t[j].next == if j == |t| - 1 then n else t[j + 1] {
          assert old(t[j].next) == NodeOrNull(t, j + 1);
          if k :| 0 <= k < |s| && s[k] == t[j] {
            assert nodes[k] == s[k] && nodes[k].next == nodes[k + 1] && old(s[k].next) == NodeOrNull(s, k + 1);
          }
        }
        assert nodes[|s|] == n && nodes[|s|].next == null;
        AppendedLinks(t, [n]);
        list.nodes := t + [n];
      }
      assert nodes[i] == s[i] && list.nodes[j] == t[j];
    }

    /** A splice behind the node before `index`; the `previous` of the node `next` that follows is still to be set. */
    method SpliceAfter(list: LinkedList<T>, index: int) returns (next: Node?<T>)
      requires ForwardValid() && list.ForwardValid() && Disjoint(nodes, list.nodes)
      requires list.nodes != [] && 0 < index <= |nodes|
      modifies `nodes, list`nodes, nodes`next, list.nodes`next, list.nodes`previous
      ensures next == NodeOrNull(old(nodes), index)
      ensures ForwardValid() && nodes == SpliceAt(old(nodes), index, old(list.nodes))
      ensures list.ForwardValid() && list.nodes == SpliceAt(old(nodes)[index..], 0, old(list.nodes))
      ensures forall j {:trigger old(list.nodes)[j].previous} :: 0 <= j < |old(list.nodes)| ==>
                old(list.nodes)[j].previous == if j == 0 then old(nodes)[index - 1] else old(list.nodes[j].previous)
    {
      ghost var s, t := nodes, list.nodes;
      var prev := NodeAt(index - 1);
      next := prev.next;
      prev.next := list.head;
      list.head.previous := prev;
      var last := list.Last();
      last.next := next;
      SplicedLinks(s, index, t);
      nodes, list.nodes := SpliceAt(s, index, t), SpliceAt(s[index..], 0, t);
    }

    /** A splice in front; if the lists share a node, following the receiver never ends. */
    method SpliceFront(list: LinkedList<T>)
      requires ForwardValid() && list.ForwardValid() && list.nodes != []
      modifies this, list`nodes, list.nodes`next
      ensures Disjoint(old(nodes), old(list.nodes)) ==>
                && ForwardValid() && nodes == SpliceAt(old(nodes), 0, old(list.nodes))
                && list.ForwardValid() && list.nodes == SpliceAt(old(nodes)[0..], 0, old(list.nodes))
      ensures !Disjoint(old(nodes), old(list.nodes)) ==> Endless(head, old(list.nodes) + old(nodes))
    {
      ghost var s, t := nodes, list.nodes;
      if i, j :| 0 <= i < |s| && 0 <= j < |t| && s[i] == t[j] {
        SharedEnd(head, s, list.head, t, i, j);
      }
      var last := list.Last();
      last.next := head;
      head := list.head;
      if Disjoint(s, t) {
        SplicedLinks(s, 0, t);
        nodes, list.nodes := SpliceAt(s, 0, t), SpliceAt(s[0..], 0, t);
      } else {
        JoinedEndless(t, s);
      }
    }

    /** The links that a splice sets, and the two chains it leaves. */
    method Splice(list: LinkedList<T>, index: int)
      requires ForwardValid() && list.ForwardValid() && (Disjoint(nodes, list.nodes) || index == 0)
      requires list.nodes != [] && 0 <= index <= |nodes|
      modifies this, list`nodes, nodes`next, nodes`previous, list.nodes`next, list.nodes`previous
      ensures Disjoint(old(nodes), old(list.nodes)) ==>
                && ForwardValid() && nodes == SpliceAt(old(nodes), index, old(list.nodes))
                && list.ForwardValid() && list.nodes == SpliceAt(old(nodes)[index..], 0, old(list.nodes))
      ensures !Disjoint(old(nodes), old(list.nodes)) ==> Endless(head, old(list.nodes) + old(nodes))
      ensures forall j {:trigger old(nodes)[j].previous} :: 0 <= j < |old(nodes)| ==>
                old(nodes)[j].previous == if j == index > 0 then nodes[|nodes| - 1] else old(nodes[j].previous)
      ensures forall j {:trigger old(list.nodes)[j].previous} :: 0 <= j < |old(list.nodes)| ==>
                old(list.nodes)[j].previous
                == if j == 0 < index then old(nodes)[index - 1] else old(list.nodes[j].previous)
    {
      if index == 0 {
        SpliceFront(list);
      } else {
        var next := SpliceAfter(list, index);
        var newLast := list.Last();
        if next != null {
          next.previous := newLast;
        }
      }
    }

    /**
     What a splice at a later index does with lists that share a node: if the node before
     `index` belongs to `list`, the search for the last node of `list` never ends.
     */
    method SpliceStalls(list: LinkedList<T>, index: int)
      requires ForwardValid() && list.ForwardValid() && 0 < index <= |nodes| && nodes[index - 1] in list.nodes
      modifies nodes`next, list.nodes`next, list.nodes`previous
      ensures Endless(list.head, list.nodes[..Place(list.nodes, nodes[index - 1]) + 1])
    {
      ghost var t, p := list.nodes, Place(list.nodes, nodes[index - 1]);
      var prev := NodeAt(index - 1);
      prev.next := list.head;
      list.head.previous := prev;
      assert forall j :: 0 <= j < p ==> t[j].next == t[j + 1];
      MovedForward(t, p, 0);
    }

    /** Otherwise that search still ends, but the next one, for the `previous` of the node at `index`, does not. */
    method SpliceStallsLater(list: LinkedList<T>, index: int)
      requires ForwardValid() && list.ForwardValid() && 0 < index <= |nodes|
      requires !Disjoint(nodes, list.nodes) && nodes[index - 1] !in list.nodes
      modifies nodes`next, list.nodes`next, list.nodes`previous
      ensures index < |nodes| && Endless(list.head, list.nodes + nodes)
    {
      ghost var s, t := nodes, list.nodes;
      ghost var i, j :| 0 <= i < |s| && 0 <= j < |t| && s[i] == t[j];
      SharedEnd(head, s, list.head, t, i, j);
      var prev := NodeAt(index - 1);
      var next := prev.next;
      prev.next := list.head;
      list.head.previous := prev;
      var last := list.Last();
      last.next := next;
      SplicedRound(s, index, t);
    }

    /**
     Moves the nodes of `list` in at `index`.  The forward chain is always right, and
     `list` now shares the rest of the receiver.  Only the link from the inserted nodes
     back to the receiver is made; the node that follows them, if there is one, is left as
     it is at index 0 and otherwise linked to the very last node.  Lists that share a node
     become endless at index 0; at a later one the source never returns.
     */
    method InsertList(list: LinkedList<T>, index: int)
      requires ForwardValid() && list.ForwardValid() && (Disjoint(nodes, list.nodes) || index == 0)
      requires list.nodes != [] ==> 0 <= index <= |nodes|
      modifies this, list`nodes, nodes`next, nodes`previous, list.nodes`next, list.nodes`previous
      ensures old(list.nodes) == [] ==> ForwardValid() && nodes == old(nodes) && (Valid() <==> old(Valid()))
      ensures !Disjoint(old(nodes), old(list.nodes)) ==> Endless(head, old(list.nodes) + old(nodes))
      ensures old(list.nodes) != [] && Disjoint(old(nodes), old(list.nodes)) ==>
                && ForwardValid() && nodes == SpliceAt(old(nodes), index, old(list.nodes))
                && list.ForwardValid() && list.nodes == SpliceAt(old(nodes)[index..], 0, old(list.nodes))
                && Values() == SpliceAt(old(Values()), index, old(list.Values()))
      ensures old(list.nodes) != [] ==> forall j {:trigger old(nodes)[j].previous} :: 0 <= j < |old(nodes)| ==>
                old(nodes)[j].previous == if j == index > 0 then nodes[|nodes| - 1] else old(nodes[j].previous)
      ensures forall j {:trigger old(list.nodes)[j].previous} :: 0 <= j < |old(list.nodes)| ==>
                old(list.nodes)[j].previous
                == if j == 0 < index then old(nodes)[index - 1] else old(list.nodes[j].previous)
      ensures old(list.nodes) != [] && Disjoint(old(nodes), old(list.nodes)) && old(Valid() && list.Valid()) ==>
                (Valid() <==> index == |old(nodes)|)
    {
      hide ValuesOf, Endless, Distinct;
      if list.IsEmpty() {
        return;
      }
      ghost var s, t := nodes, list.nodes;
      ValuesOfSplice(s, index, t);
      Splice(list, index);
      if Disjoint(s, t) && old(Valid() && list.Valid()) {
        SplicedBackLinks(s, index, t);
      }
    }

    /** One round of the reversal's loop: it swaps the node's links; answers the next node. */
    method SwapNode(currentNode: Node<T>) returns (node: Node?<T>)
      modifies `head, currentNode`next, currentNode`previous
      ensures node == old(currentNode.next) && head == currentNode
      ensures currentNode.next == old(currentNode.previous) && currentNode.previous == old(currentNode.next)
    {
      node := currentNode.next;
      currentNode.next, currentNode.previous := currentNode.previous, currentNode.next;
      head := currentNode;
    }

    /** The loop of the reversal: it swaps the links of every node. */
    method SwapLinks()
      requires ForwardValid()
      modifies `head, nodes`next, nodes`previous
      ensures head == NodeOrNull(nodes, |nodes| - 1)
      ensures forall j {:trigger nodes[j].next} :: 0 <= j < |nodes| ==> nodes[j].next == old(BacksOf(nodes))[j]
      ensures forall j {:trigger nodes[j].previous} :: 0 <= j < |nodes| ==>
                nodes[j].previous == NodeOrNull(nodes, j + 1)
    {
      hide BacksOf;
      var node := head;
      ghost var i := 0;
      while node != null
        invariant 0 <= i <= |nodes| && node == NodeOrNull(nodes, i)
        invariant head == NodeOrNull(nodes, if i == 0 then 0 else i - 1)
        invariant forall j {:trigger nodes[j].next} :: 0 <= j < |nodes| ==>
                    nodes[j].next == if j < i then old(BacksOf(nodes))[j] else NodeOrNull(nodes, j + 1)
        invariant forall j {:trigger nodes[j].previous} :: 0 <= j < |nodes| ==>
                    nodes[j].previous == if j < i then NodeOrNull(nodes, j + 1) else old(nodes[j].previous)
        decreases |nodes| - i
      {
        node := SwapNode(node);
        i := i + 1;
      }
    }

    /**
     Reversal trusts the backward links: following the old `previous` links from the old last
     node, it gives the reversed list exactly when they were right.
     */
    method Reverse()
      requires ForwardValid()
      modifies this, nodes`next, nodes`previous
      ensures head == NodeOrNull(old(nodes), |old(nodes)| - 1)
      ensures forall j {:trigger old(nodes)[j].next} :: 0 <= j < |old(nodes)| ==>
                old(nodes)[j].next == old(nodes[j].previous)
      ensures forall j {:trigger old(nodes)[j].previous} :: 0 <= j < |old(nodes)| ==>
                old(nodes)[j].previous == old(nodes[j].next)
      ensures nodes == Reversed(old(nodes)) && Values() == Reversed(old(Values()))
      ensures ForwardValid() <==> old(Valid())
      ensures Valid() <==> old(Valid())
    {
      hide ValuesOf, BacksOf, BackLinked;
      ghost var s, backs, v := nodes, BacksOf(nodes), Values();
      BackLinkedIff(s, backs);
      SwapLinks();
      ReversedValues(s, v);
      ReversedLinks(s);
      hide Chain;
      nodes := Reversed(s);
      assert forall j {:trigger s[j].next} {:trigger backs[j]} :: 0 <= j < |s| ==> s[j].next == backs[j];
    }

    method Map<U>(transform: T -> U) returns (result: LinkedList<U>)
      requires ForwardValid()
      ensures result.Valid() && fresh(result)
      ensures forall i :: 0 <= i < |result.nodes| ==> fresh(result.nodes[i])
      ensures result.Values() == MapSeq(transform, Values())
    {
      hide ValuesOf, BackLinked, MapSeq;
      MapSeqEmpty(transform);
      result := new LinkedList<U>();
      var node := head;
      ghost var i := 0;
      while node != null
        invariant 0 <= i <= |nodes| && node == NodeOrNull(nodes, i)
        invariant result.Valid() && fresh(result)
        invariant forall i :: 0 <= i < |result.nodes| ==> fresh(result.nodes[i])
        invariant result.Values() == MapSeq(transform, Values()[..i])
        decreases |nodes| - i
      {
        MapSeqNext(transform, Values(), i);
        ghost var _ := result.Append(transform(node.value));
        node := node.next;
        i := i + 1;
      }
      assert Values()[..i] == Values();
    }

    method Filter(keep: T -> bool) returns (result: LinkedList<T>)
      requires ForwardValid()
      ensures result.Valid() && fresh(result)
      ensures forall i :: 0 <= i < |result.nodes| ==> fresh(result.nodes[i])
      ensures result.Values() == FilterSeq(keep, Values())
    {
      hide ValuesOf, BackLinked, FilterSeq;
      FilterSeqEmpty(keep);
      result := new LinkedList<T>();
      var node := head;
      ghost var i := 0;
      while node != null
        invariant 0 <= i <= |nodes| && node == NodeOrNull(nodes, i)
        invariant result.Valid() && fresh(result)
        invariant forall i :: 0 <= i < |result.nodes| ==> fresh(result.nodes[i])
        invariant result.Values() == FilterSeq(keep, Values()[..i])
        decreases |nodes| - i
      {
        FilterSeqNext(keep, Values(), i);
        if keep(node.value) {
          ghost var _ := result.Append(node.value);
        }
        node := node.next;
        i := i + 1;
      }
      assert Values()[..i] == Values();
    }

    // The list as a collection.

    function StartIndex(): LinkedListIndex<T>
      reads this
    {
      LinkedListIndex(head, 0)
    }

    /** The end carries the head node, not a null one: only its tag says that it is the end. */
    method EndIndex() returns (end: LinkedListIndex<T>)
      requires ForwardValid()
      ensures end == LinkedListIndex(head, |nodes|)
    {
      if head != null {
        var count := Count();
        return LinkedListIndex(head, count);
      }
      return LinkedListIndex(null, StartIndex().tag);
    }

    static function IndexAfter(idx: LinkedListIndex<T>): LinkedListIndex<T>
      reads if idx.node == null then {} else {idx.node}
    {
      LinkedListIndex(if idx.node == null then null else idx.node.next, idx.tag + 1)
    }

    /** Iteration from start to end: it never dereferences null and yields the values in order. */
    method Iterate() returns (elements: seq<T>, steps: int)
      requires ForwardValid()
      ensures elements == Values() && steps == |nodes|
    {
      var position := StartIndex();
      elements, steps := [], 0;
      while true
        invariant 0 <= steps <= |nodes| && elements == Values()[..steps]
        invariant position == LinkedListIndex(NodeOrNull(nodes, steps), steps)
        decreases |nodes| - steps
      {
        var end := EndIndex();
        if position.Same(end) {
          return;
        }
        elements := elements + [position.node.value];
        position := IndexAfter(position);
        steps := steps + 1;
      }
    }

    // Round trips.

    /**
     Inserting a value and removing it again gives the value back and restores every link; a
     wrong `previous` of the node at `index` comes right.  So a well-linked list stays one.
     */
    method InsertThenRemove(value: T, index: int) returns (removed: T)
      requires ForwardValid() && 0 <= index <= |nodes|
      modifies this, nodes`next, nodes`previous
      ensures removed == value && ForwardValid() && nodes == old(nodes)
      ensures forall n <- nodes :: n.next == old(n.next)
      ensures forall j {:trigger nodes[j].previous} :: 0 <= j < |nodes| ==>
                nodes[j].previous == if j == index then NodeOrNull(nodes, index - 1) else old(nodes[j].previous)
    {
      ghost var s := nodes;
      hide ValuesOf, BackLinked, BackLinkedOutside, Remains, Distinct, InsertAt, DeleteAt;
      ghost var node := Insert(value, index);
      DeleteInserted(s, index, node);
      ghost var n := nodes;
      assert node.previous == NodeOrNull(n, index - 1) == NodeOrNull(s, index - 1);
      removed := RemoveAt(index);
      forall j {:trigger s[j].previous} | 0 <= j < |s|
        ensures s[j].previous == if j == index then NodeOrNull(s, index - 1) else old(s[j].previous)
      {
        assert s[j] == n[if j < index then j else j + 1];
      }
    }

    /** Reversing twice restores every link. */
    method ReverseTwice()
      requires Valid()
      modifies this, nodes`next, nodes`previous
      ensures Valid() && nodes == old(nodes)
      ensures forall n <- nodes :: n.next == old(n.next) && n.previous == old(n.previous)
    {
      ghost var s := nodes;
      Reverse();
      Reverse();
      ReversedTwice(s);
    }

    // What a splice does to the calls after it.

    /** Reversing keeps only what follows the last node without a `previous`. */
    method ReverseFromBreak(ghost k: nat)
      requires ForwardValid() && k < |nodes| && nodes[k].previous == null
      requires forall j {:trigger nodes[j].previous} :: k < j < |nodes| ==> nodes[j].previous == nodes[j - 1]
      modifies this, nodes`next, nodes`previous
      ensures Chain(head, Reversed(old(nodes)[k..])) && (ForwardValid() ==> k == 0)
    {
      hide ValuesOf, BackLinked;
      ghost var n := nodes;
      Reverse();
      assert forall j {:trigger n[j].next} :: k <= j < |n| ==> n[j].next == if j == k then null else n[j - 1];
      LinkedToFront(n, k);
      assert Reversed(n)[|n| - 1 - k] == n[k];
      assert ForwardValid() ==> Reversed(n)[|n| - 1 - k].next == NodeOrNull(Reversed(n), |n| - k);
    }

    /** Reversing makes the list endless if `previous` leads from some node to the last one. */
    method ReverseInCircle(ghost k: nat)
      requires ForwardValid() && k < |nodes| && nodes[k].previous == nodes[|nodes| - 1]
      requires forall j {:trigger nodes[j].previous} :: k < j < |nodes| ==> nodes[j].previous == nodes[j - 1]
      modifies this, nodes`next, nodes`previous
      ensures Circle(head, Reversed(old(nodes)[k..])) && Endless(head, Reversed(old(nodes)[k..]))
    {
      ghost var n := nodes;
      assert Distinct(n) && forall j {:trigger n[j].next} :: 0 <= j < |n| ==> n[j].next == NodeOrNull(n, j + 1);
      hide ValuesOf, BackLinked, Chain, Distinct, Reversed;
      Reverse();
      assert forall j {:trigger n[j].next} :: k <= j < |n| ==> n[j].next == n[if j == k then |n| - 1 else j - 1];
      assert forall j {:trigger n[j].previous} :: k <= j < |n| ==> n[j].previous == NodeOrNull(n, j + 1);
      LinkedInCircle(n, k);
      CircleEndless(head, Reversed(n[k..]));
    }

    /**
     Reversing a list that goes round in a circle ends after one round more than it has
     nodes, because the first node has lost its `next` by then.  It leaves the list going
     back and forth between its first two nodes.
     */
    method ReverseCircle(ghost q: seq<Node<T>>)
      requires Circle(head, q)
      modifies `head, q`next, q`previous
      ensures head == q[0] && Endless(head, q[..if |q| == 1 then 1 else 2])
    {
      var node := head;
      ghost var i := 0;
      while node != null
        invariant 0 <= i <= |q| + 1 && head == if i == 0 || i > |q| then q[0] else q[i - 1]
        invariant node == if i < |q| then q[i] else if i == |q| then q[0] else null
        invariant forall j {:trigger q[j].next} :: 0 <= j < |q| ==>
                    q[j].next == if j < i && !(j == 0 && i > |q|) then NodeOrNull(q, j - 1)
                                 else q[if j + 1 < |q| then j + 1 else 0]
        invariant forall j {:trigger q[j].previous} :: 0 <= j < |q| ==>
                    q[j].previous == if j < i && !(j == 0 && i > |q|) then q[if j + 1 < |q| then j + 1 else 0]
                                     else NodeOrNull(q, j - 1)
        decreases |q| + 1 - i
      {
        node := SwapNode(node);
        i := i + 1;
      }
      ghost var p := q[..if |q| == 1 then 1 else 2];
      assert p[0] == q[0] && p[0].next == p[|p| - 1] && p[|p| - 1].next == p[0];
    }

    /** A splice before a node of a well-linked list, seen from that node. */
    method SpliceBefore(list: LinkedList<T>, index: int)
      requires Valid() && list.ForwardValid() && Disjoint(nodes, list.nodes) && list.nodes != []
      requires 0 <= index < |nodes|
      modifies this, list`nodes, nodes`next, nodes`previous, list.nodes`next, list.nodes`previous
      ensures ForwardValid() && nodes == SpliceAt(old(nodes), index, old(list.nodes))
      ensures nodes[index + |old(list.nodes)|].previous == if index == 0 then null else nodes[|nodes| - 1]
      ensures forall j {:trigger nodes[j].previous} :: index + |old(list.nodes)| < j < |nodes| ==>
                nodes[j].previous == nodes[j - 1]
    {
      ghost var s, t := nodes, list.nodes;
      assert forall j {:trigger s[j].previous} :: 0 <= j < |s| ==> s[j].previous == if j == 0 then null else s[j - 1];
      hide *;
      SpliceMembers(s, index, t);
      InsertList(list, index);
      SplicedAt(s, t, index);
    }

    /** After a splice in front of a non-empty list, reversing it loses the inserted nodes. */
    method SpliceFrontThenReverse(list: LinkedList<T>)
      requires Valid() && list.ForwardValid() && Disjoint(nodes, list.nodes) && nodes != [] && list.nodes != []
      modifies this, list`nodes, nodes`next, nodes`previous, list.nodes`next, list.nodes`previous
      ensures !ForwardValid() && Chain(head, Reversed(old(nodes)))
    {
      hide *;
      ghost var s, t := nodes, list.nodes;
      SpliceBefore(list, 0);
      SpliceMembers(s, 0, t);
      assert s[0..] == s;
      ReverseFromBreak(|t|);
    }

    /** After a splice before a node of the list, reversing the list makes it endless. */
    method SpliceInsideThenReverse(list: LinkedList<T>, index: int)
      requires Valid() && list.ForwardValid() && Disjoint(nodes, list.nodes) && list.nodes != []
      requires 0 < index < |nodes|
      modifies this, list`nodes, nodes`next, nodes`previous, list.nodes`next, list.nodes`previous
      ensures Circle(head, Reversed(old(nodes)[index..])) && Endless(head, Reversed(old(nodes)[index..]))
    {
      hide *;
      ghost var s, t := nodes, list.nodes;
      SpliceBefore(list, index);
      SpliceMembers(s, index, t);
      ReverseInCircle(index + |t|);
    }

    /** A second reversal of that list ends, too, at the receiver's old last node. */
    method SpliceInsideThenReverseTwice(list: LinkedList<T>, index: int)
      requires Valid() && list.ForwardValid() && Disjoint(nodes, list.nodes) && list.nodes != []
      requires 0 < index < |nodes|
      modifies this, list`nodes, nodes`next, nodes`previous, list.nodes`next, list.nodes`previous
      ensures head == old(nodes)[|old(nodes)| - 1]
      ensures var q := Reversed(old(nodes)[index..]); Endless(head, q[..if |q| == 1 then 1 else 2])
    {
      hide *;
      ghost var s, q := nodes, Reversed(nodes[index..]);
      assert forall n <- q :: n in s;
      assert q[0] == s[|s| - 1];
      SpliceInsideThenReverse(list, index);
      ReverseCircle(q);
    }

    /** After a splice in front, removing the node that follows the inserted ones takes these out as well. */
    method SpliceFrontThenRemove(list: LinkedList<T>) returns (value: T)
      requires Valid() && list.ForwardValid() && Disjoint(nodes, list.nodes) && nodes != [] && list.nodes != []
      modifies this, list`nodes, nodes`next, nodes`previous, list.nodes`next, list.nodes`previous
      ensures ForwardValid() && nodes == old(nodes)[1..] && value == old(Values())[0]
    {
      ghost var s, t := nodes, list.nodes;
      var count := list.Count();
      InsertList(list, 0);
      SpliceMembers(s, 0, t);
      assert nodes[|t|] == s[0] && s[0].previous == null;
      value := RemoveAt(count);
    }

    /** After a splice before the last node, removing the last node leaves it where it is. */
    method SpliceBeforeLastThenRemoveLast(list: LinkedList<T>) returns (value: T)
      requires Valid() && list.ForwardValid() && Disjoint(nodes, list.nodes) && |nodes| > 1 && list.nodes != []
      modifies this, list`nodes, nodes`next, nodes`previous, list.nodes`next, list.nodes`previous
      ensures ForwardValid() && nodes == SpliceAt(old(nodes), |old(nodes)| - 1, old(list.nodes))
      ensures value == old(Values())[|old(nodes)| - 1]
    {
      ghost var s, t := nodes, list.nodes;
      var count := Count();
      InsertList(list, count - 1);
      SpliceMembers(s, count - 1, t);
      assert nodes[|nodes| - 1] == s[|s| - 1] == s[|s| - 1].previous;
      value := RemoveLast();
    }
  }

  /** Two lists of one value each. */
  method TwoLists<T>(x: T, y: T) returns (a: LinkedList<T>, b: LinkedList<T>)
    ensures a.Valid() && b.Valid() && Disjoint(a.nodes, b.nodes) && a != b
    ensures a.Values() == [x] && b.Values() == [y]
    ensures fresh(a) && fresh(b) && fresh(a.nodes) && fresh(b.nodes)
  {
    hide Chain, BackLinked, ValuesOf;
    a := new LinkedList();
    ghost var n := a.Append(x);
    b := new LinkedList();
    ghost var m := b.Append(y);
  }

  /** An instance: once `y` is spliced in before `x`, the backward links are wrong. */
  method SpliceBreaksBackLinks<T>(x: T, y: T) returns (a: LinkedList<T>)
    ensures a.ForwardValid() && !a.Valid() && a.Values() == [y, x]
  {
    hide Chain, BackLinked, ValuesOf;
    var b;
    a, b := TwoLists(x, y);
    a.InsertList(b, 0);
  }

  /** Reversing that list leaves `x` alone. */
  method ReverseLosesInserted<T>(x: T, y: T) returns (a: LinkedList<T>, ghost rest: seq<Node<T>>)
    ensures !a.ForwardValid() && Chain(a.head, rest) && ValuesOf(rest) == [x]
  {
    hide Chain, BackLinked, ValuesOf;
    var b;
    a, b := TwoLists(x, y);
    rest := Reversed(a.nodes);
    assert rest == a.nodes && a.Values()[0] == x;
    a.SpliceFrontThenReverse(b);
  }
}

/**
 Whole runs of the two caches.  `InsertFirst` is `LRUCacheNew`, `EvictFirst` is
 `LRUCache`; a run starts from the empty cache and executes a history of calls.
 */
module CacheHistory {
  import opened Options
  import opened RecencyList

  datatype Design = InsertFirst | EvictFirst

  function Step<K(==), V>(d: Design, s: seq<Entry<K, V>>, op: Op<K, V>, size: int): seq<Entry<K, V>> {
    match op
    case Get(k) => GetStep(s, k)
    case Put(k, v) => if d.InsertFirst? then PutThenEvict(s, k, v, size) else EvictThenPut(s, k, v, size)
  }

  /** The contents, most recent first, after running `ops` from the empty cache. */
  function After<K(==), V>(d: Design, ops: seq<Op<K, V>>, size: int): seq<Entry<K, V>> {
    if ops == [] then []
    else Step(d, After(d, ops[..|ops| - 1], size), ops[|ops| - 1], size)
  }

  /** What the caller of each operation gets back; a put answers nothing. */
  function Answers<K(==), V>(d: Design, ops: seq<Op<K, V>>, size: int): (r: seq<Option<V>>)
    ensures |r| == |ops|
  {
    if ops == [] then []
    else
      var before := ops[..|ops| - 1];
      var op := ops[|ops| - 1];
      Answers(d, before, size) + [if op.Get? then Lookup(After(d, before, size), op.key) else None]
  }

  /** The number of entries a design really keeps: `LRUCache` never goes below one. */
  function Bound(d: Design, size: int): (r: nat) {
    if d.InsertFirst? then Max(0, size) else Max(1, size)
  }

  /** Both designs do the same thing at each step: touch the key, keep the `Bound` most recent. */
  lemma StepIsTouchCut<K, V>(d: Design, s: seq<Entry<K, V>>, op: Op<K, V>, size: int)
    requires DistinctKeys(s) && |s| <= Bound(d, size)
    ensures op.Put? ==> Step(d, s, op, size) == Take(Touch(s, op.key, op.value), Bound(d, size))
    ensures op.Get? && Has(s, op.key) ==>
              Step(d, s, op, size) == Take(Touch(s, op.key, Lookup(s, op.key).value), Bound(d, size))
    ensures op.Get? && !Has(s, op.key) ==> Step(d, s, op, size) == s
    ensures DistinctKeys(Step(d, s, op, size)) && |Step(d, s, op, size)| <= Bound(d, size)
  {
    match op
    case Get(k) =>
      if Has(s, k) {
        TouchDistinct(s, k, Lookup(s, k).value);
      }
    case Put(k, v) =>
      TouchDistinct(s, k, v);
      if d.InsertFirst? {
        PutThenEvictIsTouchCut(s, k, v, size);
      } else {
        EvictThenPutIsTouchCut(s, k, v, size);
      }
  }

  /** No run ever holds a key twice or exceeds the bound. */
  lemma {:induction false} RunInvariant<K, V>(d: Design, ops: seq<Op<K, V>>, size: int)
    ensures DistinctKeys(After(d, ops, size)) && |After(d, ops, size)| <= Bound(d, size)
  {
    if ops != [] {
      RunInvariant(d, ops[..|ops| - 1], size);
      StepIsTouchCut(d, After(d, ops[..|ops| - 1], size), ops[|ops| - 1], size);
    }
  }

  // The two caches compared.

  /** `LRUCache(m)` and `LRUCacheNew(max(1, m))` are indistinguishable, for every `m`. */
  lemma {:induction false} CachesAgree<K, V>(ops: seq<Op<K, V>>, maxSize: int)
    ensures After(EvictFirst, ops, maxSize) == After(InsertFirst, ops, Max(1, maxSize))
    ensures Answers(EvictFirst, ops, maxSize) == Answers(InsertFirst, ops, Max(1, maxSize))
  {
    if ops != [] {
      var before, op := ops[..|ops| - 1], ops[|ops| - 1];
      CachesAgree(before, maxSize);
      RunInvariant(EvictFirst, before, maxSize);
      StepIsTouchCut(EvictFirst, After(EvictFirst, before, maxSize), op, maxSize);
      StepIsTouchCut(InsertFirst, After(EvictFirst, before, maxSize), op, Max(1, maxSize));
    }
  }

  /** Without room, only `LRUCache` still knows the key that was put last. */
  lemma CachesDifferWithoutRoom<K, V>(size: int, k: K, v: V)
    requires size <= 0
    ensures Answers(EvictFirst, [Put(k, v), Get(k)], size)[1] == Some(v)
    ensures Answers(InsertFirst, [Put(k, v), Get(k)], size)[1] == None
  {
    var put, ops := [Put(k, v)], [Put(k, v), Get(k)];
    assert ops[..1] == put && put[..0] == [];
    RunInvariant(InsertFirst, put, size);
    assert After(EvictFirst, put, size) == [Entry(k, v)];
  }

  /** At equal sizes the two caches answer every history alike exactly when the size is positive. */
  lemma CachesAgreeIffPositive<K(!new), V(!new)>(size: int, k: K, v: V)
    ensures (forall ops: seq<Op<K, V>> :: Answers(EvictFirst, ops, size) == Answers(InsertFirst, ops, size))
            <==> size >= 1
  {
    if size >= 1 {
      forall ops: seq<Op<K, V>> ensures Answers(EvictFirst, ops, size) == Answers(InsertFirst, ops, size) {
        CachesAgree(ops, size);
      }
    } else {
      CachesDifferWithoutRoom(size, k, v);
    }
  }

  // What a run holds, told from its history alone.

  /** The value of the last put of `k`. */
  function LastPut<K(==), V>(ops: seq<Op<K, V>>, k: K): Option<V> {
    if ops == [] then None
    else if ops[|ops| - 1].Put? && ops[|ops| - 1].key == k then Some(ops[|ops| - 1].value)
    else LastPut(ops[..|ops| - 1], k)
  }

  /** The keys that occur in `log` after the last occurrence of `k`. */
  function Since<K(==), V>(log: seq<Entry<K, V>>, k: K): set<K> {
    if log == [] || log[|log| - 1].key == k then {}
    else {log[|log| - 1].key} + Since(log[..|log| - 1], k)
  }

  /** `k` was touched, and fewer than `size` other keys have been touched since. */
  predicate Resident<K(==), V>(log: seq<Entry<K, V>>, k: K, size: int) {
    Has(log, k) && |Since(log, k)| < size
  }

  /** The touches of a history: every put, and every get of a resident key. */
  function Log<K(==), V>(ops: seq<Op<K, V>>, size: int): seq<Entry<K, V>> {
    if ops == [] then []
    else
      var before := ops[..|ops| - 1];
      var log := Log(before, size);
      match ops[|ops| - 1]
      case Put(k, v) => log + [Entry(k, v)]
      case Get(k) =>
        var last := LastPut(before, k);
        if Resident(log, k, size) && last.Some? then log + [Entry(k, last.value)] else log
  }

  /** The move-to-front order of a log: every key once, the most recently touched first. */
  function MoveToFront<K(==), V>(log: seq<Entry<K, V>>): seq<Entry<K, V>> {
    if log == [] then []
    else
      var last := log[|log| - 1];
      Touch(MoveToFront(log[..|log| - 1]), last.key, last.value)
  }

  lemma {:induction false} MoveToFrontKeys<K, V>(log: seq<Entry<K, V>>, k: K)
    ensures DistinctKeys(MoveToFront(log))
    ensures Has(MoveToFront(log), k) <==> Has(log, k)
  {
    if log != [] {
      var before, last := log[..|log| - 1], log[|log| - 1];
      MoveToFrontKeys(before, k);
      var m := MoveToFront(before);
      TouchDistinct(m, last.key, last.value);
      HasTouch(m, last.key, last.value, k);
      assert log == before + [last];
      HasAppend(before, last, k);
    }
  }

  lemma HasAppend<K, V>(s: seq<Entry<K, V>>, e: Entry<K, V>, k: K)
    ensures Has(s + [e], k) <==> e.key == k || Has(s, k)
  {
    var t := s + [e];
    assert t[|s|] == e;
    assert forall i :: 0 <= i < |s| ==> t[i] == s[i];
  }

  function KeySet<K(==), V>(s: seq<Entry<K, V>>): set<K> {
    if s == [] then {} else {s[0].key} + KeySet(s[1..])
  }

  lemma {:induction false} KeySetSize<K, V>(s: seq<Entry<K, V>>)
    requires DistinctKeys(s)
    ensures |KeySet(s)| == |s|
  {
    if s != [] {
      KeySetSize(s[1..]);
      if s[0].key in KeySet(s[1..]) {
        KeySetMember(s[1..], s[0].key);
      }
    }
  }

  lemma {:induction false} KeySetMember<K, V>(s: seq<Entry<K, V>>, k: K)
    ensures k in KeySet(s) ==> Has(s, k)
  {
    if s != [] && k in KeySet(s) && s[0].key != k {
      KeySetMember(s[1..], k);
      var i :| 0 <= i < |s| - 1 && s[1..][i].key == k;
      assert s[i + 1].key == k;
    }
  }

  /** A key's place in the move-to-front order is the number of keys touched since it. */
  lemma {:induction false} PlaceIsSince<K, V>(log: seq<Entry<K, V>>, p: nat)
    requires p < |MoveToFront(log)|
    ensures |Since(log, MoveToFront(log)[p].key)| == p
  {
    PlaceKeys(log, p);
    MoveToFrontKeys(log, MoveToFront(log)[p].key);
    KeySetSize(MoveToFront(log)[..p]);
  }

  lemma {:induction false} PlaceKeys<K, V>(log: seq<Entry<K, V>>, p: nat)
    requires p < |MoveToFront(log)|
    ensures KeySet(MoveToFront(log)[..p]) == Since(log, MoveToFront(log)[p].key)
  {
    hide DistinctKeys, Has;
    var before, last := log[..|log| - 1], log[|log| - 1];
    var m, t := MoveToFront(before), MoveToFront(log);
    if p > 0 {
      var rest := Without(m, last.key);
      var q := WithoutPlace(m, last.key, p - 1);
      PlaceKeys(before, q);
      assert t[p] == rest[p - 1];
      KeySetTouch(m, last.key, last.value, p);
      hide Touch, Without;
    }
  }

  lemma KeySetTouch<K, V>(m: seq<Entry<K, V>>, k: K, v: V, p: nat)
    requires 0 < p <= |Touch(m, k, v)|
    ensures KeySet(Touch(m, k, v)[..p]) == {k} + KeySet(Without(m, k)[..p - 1])
  {
    hide Without, Has;
    assert Touch(m, k, v)[..p][1..] == Without(m, k)[..p - 1];
  }

  /** Where an entry that survives a removal came from, and that the same keys precede it there. */
  lemma {:induction false} WithoutPlace<K, V>(m: seq<Entry<K, V>>, k: K, p: nat) returns (q: nat)
    requires p < |Without(m, k)|
    ensures q < |m| && m[q] == Without(m, k)[p]
    ensures {k} + KeySet(Without(m, k)[..p]) == {k} + KeySet(m[..q])
  {
    hide DistinctKeys, Has;
    if m[0].key == k {
      var r := WithoutPlace(m[1..], k, p);
      KeySetPrefix(m, r);
      q := r + 1;
    } else if p > 0 {
      var r := WithoutPlace(m[1..], k, p - 1);
      KeySetPrefix(m, r);
      KeySetPrefix(Without(m, k), p - 1);
      q := r + 1;
    } else {
      q := 0;
    }
  }

  lemma KeySetPrefix<K, V>(m: seq<Entry<K, V>>, q: nat)
    requires q < |m|
    ensures KeySet(m[..q + 1]) == {m[0].key} + KeySet(m[1..][..q])
  {
    assert m[..q + 1][1..] == m[1..][..q];
  }

  /** A key is in the first `size` places exactly when it is resident. */
  lemma ResidentIffNearFront<K, V>(log: seq<Entry<K, V>>, k: K, size: int)
    ensures Has(Take(MoveToFront(log), size), k) <==> Resident(log, k, size)
  {
    var m := MoveToFront(log);
    MoveToFrontKeys(log, k);
    if p :| 0 <= p < |m| && m[p].key == k {
      PlaceIsSince(log, p);
      if p < size {
        assert Take(m, size)[p] == m[p];
      }
    }
  }

  /** Every entry of the move-to-front order carries the value of the last put of its key. */
  ghost predicate HoldsLastPuts<K, V>(s: seq<Entry<K, V>>, ops: seq<Op<K, V>>) {
    forall i :: 0 <= i < |s| ==> LastPut(ops, s[i].key) == Some(s[i].value)
  }

  lemma TouchHoldsLastPuts<K, V>(s: seq<Entry<K, V>>, ops: seq<Op<K, V>>, op: Op<K, V>, v: V)
    requires HoldsLastPuts(s, ops)
    requires LastPut(ops + [op], op.key) == Some(v)
    ensures HoldsLastPuts(Touch(s, op.key, v), ops + [op])
  {
    var t := Touch(s, op.key, v);
    assert (ops + [op])[..|ops|] == ops;
    forall i | 0 < i < |t| ensures LastPut(ops + [op], t[i].key) == Some(t[i].value) {
      assert t[i] == Without(s, op.key)[i - 1];
    }
  }

  /**
   After any run, `LRUCacheNew` holds exactly the first `capacity` entries of the
   move-to-front order of its touches, each with its last put value.  So the entry
   an eviction drops is always the least recently used one.
   */
  lemma {:induction false} ContentsAreMostRecent<K, V>(ops: seq<Op<K, V>>, capacity: int)
    ensures After(InsertFirst, ops, capacity) == Take(MoveToFront(Log(ops, capacity)), capacity)
    ensures HoldsLastPuts(MoveToFront(Log(ops, capacity)), ops)
  {
    if ops != [] {
      var before, op := ops[..|ops| - 1], ops[|ops| - 1];
      var log := Log(before, capacity);
      var m := MoveToFront(log);
      ContentsAreMostRecent(before, capacity);
      MoveToFrontKeys(log, op.key);
      RunInvariant(InsertFirst, before, capacity);
      StepIsTouchCut(InsertFirst, Take(m, capacity), op, capacity);
      ResidentIffNearFront(log, op.key, capacity);
      assert ops == before + [op];
      if op.Put? {
        TakeTouch(m, op.key, op.value, capacity);
        assert (log + [Entry(op.key, op.value)])[..|log|] == log;
        TouchHoldsLastPuts(m, before, op, op.value);
      } else if Has(Take(m, capacity), op.key) {
        var v := Lookup(Take(m, capacity), op.key).value;
        assert LastPut(before, op.key) == Some(v);
        TakeTouch(m, op.key, v, capacity);
        assert (log + [Entry(op.key, v)])[..|log|] == log;
        TouchHoldsLastPuts(m, before, op, v);
      }
    }
  }

  /**
   What a get answers, from the history alone: the last value put for the key if fewer
   than `capacity` other keys have been touched since the key was, and nothing otherwise.
   */
  lemma GetAnswersFromHistory<K, V>(ops: seq<Op<K, V>>, capacity: int, k: K)
    ensures Lookup(After(InsertFirst, ops, capacity), k)
            == if Resident(Log(ops, capacity), k, capacity) then LastPut(ops, k) else None
  {
    ContentsAreMostRecent(ops, capacity);
    ResidentIffNearFront(Log(ops, capacity), k, capacity);
  }

  // Two sizes compared.

  /** A get that only the larger cache can answer. */
  predicate SplitGet<K(==), V>(ops: seq<Op<K, V>>, i: nat, small: int, large: int)
    requires i < |ops|
  {
    && ops[i].Get?
    && Has(After(InsertFirst, ops[..i], large), ops[i].key)
    && !Has(After(InsertFirst, ops[..i], small), ops[i].key)
  }

  lemma {:induction false} SmallIsCutOfLarge<K, V>(ops: seq<Op<K, V>>, small: int, large: int)
    requires small <= large
    requires forall i :: 0 <= i < |ops| ==> !SplitGet(ops, i, small, large)
    ensures After(InsertFirst, ops, small) == Take(After(InsertFirst, ops, large), small)
  {
    if ops != [] {
      var before, op := ops[..|ops| - 1], ops[|ops| - 1];
      forall i | 0 <= i < |before| ensures !SplitGet(before, i, small, large) {
        assert before[..i] == ops[..i];
        assert !SplitGet(ops, i, small, large);
      }
      SmallIsCutOfLarge(before, small, large);
      var s, l := After(InsertFirst, before, small), After(InsertFirst, before, large);
      RunInvariant(InsertFirst, before, small);
      RunInvariant(InsertFirst, before, large);
      assert !SplitGet(ops, |ops| - 1, small, large);
      StepKeepsCut(s, l, op, small, large);
    }
  }

  /** If one list is a cut of the other, it stays one unless a get finds its key in the other alone. */
  lemma StepKeepsCut<K, V>(s: seq<Entry<K, V>>, l: seq<Entry<K, V>>, op: Op<K, V>, small: int, large: int)
    requires small <= large && s == Take(l, small)
    requires DistinctKeys(s) && |s| <= Bound(InsertFirst, small)
    requires DistinctKeys(l) && |l| <= Bound(InsertFirst, large)
    requires op.Get? && Has(l, op.key) ==> Has(s, op.key)
    ensures Step(InsertFirst, s, op, small) == Take(Step(InsertFirst, l, op, large), small)
  {
    StepIsTouchCut(InsertFirst, s, op, small);
    StepIsTouchCut(InsertFirst, l, op, large);
    hide Step, DistinctKeys, Touch;
    if op.Put? {
      TakeTouch(l, op.key, op.value, small);
    } else if i :| 0 <= i < |s| && s[i].key == op.key {
      assert l[i] == s[i];
      LookupAt(l, i);
      LookupAt(s, i);
      TakeTouch(l, op.key, l[i].value, small);
    }
  }

  /** Stack inclusion: with puts alone, the smaller cache is a prefix of the larger one. */
  lemma StackInclusion<K, V>(ops: seq<Op<K, V>>, small: int, large: int)
    requires small <= large
    requires forall i :: 0 <= i < |ops| ==> ops[i].Put?
    ensures After(InsertFirst, ops, small) <= After(InsertFirst, ops, large)
  {
    SmallIsCutOfLarge(ops, small, large);
  }

  /** The smaller cache's contents are a prefix of the larger one's all along the history. */
  ghost predicate PrefixAllAlong<K, V>(ops: seq<Op<K, V>>, small: int, large: int) {
    forall n :: 0 <= n <= |ops| ==> After(InsertFirst, ops[..n], small) <= After(InsertFirst, ops[..n], large)
  }

  /**
   With gets, inclusion can fail, and it does exactly when the larger cache answers a get
   that the smaller one misses; a cache without room is a prefix of any other.
   */
  lemma {:induction false} InclusionUnlessSplit<K, V>(ops: seq<Op<K, V>>, small: int, large: int)
    requires small <= large
    ensures PrefixAllAlong(ops, small, large)
            <==> small <= 0 || forall i :: 0 <= i < |ops| ==> !SplitGet(ops, i, small, large)
  {
    if forall i :: 0 <= i < |ops| ==> !SplitGet(ops, i, small, large) {
      forall n | 0 <= n <= |ops|
        ensures After(InsertFirst, ops[..n], small) <= After(InsertFirst, ops[..n], large)
      {
        NoSplitBefore(ops, n, small, large);
        SmallIsCutOfLarge(ops[..n], small, large);
      }
    } else if small <= 0 {
      forall n | 0 <= n <= |ops| ensures After(InsertFirst, ops[..n], small) == [] {
        RunInvariant(InsertFirst, ops[..n], small);
      }
    } else {
      var i := FirstSplit(ops, small, large);
      NoSplitBefore(ops, i, small, large);
      SplitBreaksPrefix(ops, i, small, large);
    }
  }

  /** After the first split, the key that was asked for is in front of the larger cache alone. */
  lemma SplitBreaksPrefix<K, V>(ops: seq<Op<K, V>>, i: nat, small: int, large: int)
    requires 1 <= small <= large && i < |ops| && SplitGet(ops, i, small, large)
    requires forall j :: 0 <= j < i ==> !SplitGet(ops[..i], j, small, large)
    ensures !(After(InsertFirst, ops[..i + 1], small) <= After(InsertFirst, ops[..i + 1], large))
  {
    SmallIsCutOfLarge(ops[..i], small, large);
    var k := ops[i].key;
    var s, l := After(InsertFirst, ops[..i], small), After(InsertFirst, ops[..i], large);
    assert ops[..i + 1][..i] == ops[..i];
    assert After(InsertFirst, ops[..i + 1], small) == s && s != [] && s[0].key != k;
    assert After(InsertFirst, ops[..i + 1], large) == GetStep(l, k) && GetStep(l, k)[0].key == k;
  }

  /**
   A split told from the history alone: the key asked for has been touched less than `large`
   other keys ago by the puts and the gets that `large` places answer, but not less than
   `small` other keys ago by the puts and the gets that `small` places answer.
   */
  predicate SplitByHistory<K(==), V>(ops: seq<Op<K, V>>, i: nat, small: int, large: int)
    requires i < |ops|
  {
    && ops[i].Get?
    && Resident(Log(ops[..i], large), ops[i].key, large)
    && !Resident(Log(ops[..i], small), ops[i].key, small)
  }

  lemma SplitFromHistory<K, V>(ops: seq<Op<K, V>>, i: nat, small: int, large: int)
    requires i < |ops|
    ensures SplitGet(ops, i, small, large) <==> SplitByHistory(ops, i, small, large)
  {
    ContentsAreMostRecent(ops[..i], large);
    ContentsAreMostRecent(ops[..i], small);
    ResidentIffNearFront(Log(ops[..i], large), ops[i].key, large);
    ResidentIffNearFront(Log(ops[..i], small), ops[i].key, small);
  }

  /** Stack inclusion decided by the history alone, for any two sizes. */
  lemma StackInclusionIff<K, V>(ops: seq<Op<K, V>>, small: int, large: int)
    requires small <= large
    ensures PrefixAllAlong(ops, small, large)
            <==> small <= 0 || forall i :: 0 <= i < |ops| ==> !SplitByHistory(ops, i, small, large)
  {
    InclusionUnlessSplit(ops, small, large);
    hide PrefixAllAlong, SplitGet, SplitByHistory;
    forall i | 0 <= i < |ops| ensures SplitGet(ops, i, small, large) <==> SplitByHistory(ops, i, small, large) {
      SplitFromHistory(ops, i, small, large);
    }
  }

  /** An instance: only the larger cache still knows `a` when it is asked for, and it moves `a` to the front. */
  lemma InclusionFails<K, V>(a: K, b: K, v: V, w: V)
    requires a != b
    ensures After(InsertFirst, [Put(a, v), Put(b, w), Get(a)], 1) == [Entry(b, w)]
    ensures After(InsertFirst, [Put(a, v), Put(b, w), Get(a)], 2) == [Entry(a, v), Entry(b, w)]
  {
    var one, two, ops := [Put(a, v)], [Put(a, v), Put(b, w)], [Put(a, v), Put(b, w), Get(a)];
    assert one[..0] == [] && two[..1] == one && ops[..2] == two;
    assert After(InsertFirst, one, 1) == After(InsertFirst, one, 2) == [Entry(a, v)];
    assert After(InsertFirst, two, 1) == [Entry(b, w)];
    assert After(InsertFirst, two, 2) == [Entry(b, w), Entry(a, v)];
  }

  lemma NoSplitBefore<K, V>(ops: seq<Op<K, V>>, n: nat, small: int, large: int)
    requires n <= |ops|
    requires forall i :: 0 <= i < n ==> !SplitGet(ops, i, small, large)
    ensures forall i :: 0 <= i < n ==> !SplitGet(ops[..n], i, small, large)
  {
    forall i | 0 <= i < n ensures !SplitGet(ops[..n], i, small, large) {
      assert ops[..n][..i] == ops[..i];
      assert !SplitGet(ops, i, small, large);
    }
  }

  lemma {:induction false} FirstSplit<K, V>(ops: seq<Op<K, V>>, small: int, large: int) returns (i: nat)
    requires exists j :: 0 <= j < |ops| && SplitGet(ops, j, small, large)
    ensures i < |ops| && SplitGet(ops, i, small, large)
    ensures forall j :: 0 <= j < i ==> !SplitGet(ops, j, small, large)
  {
    hide SplitGet;
    i := 0;
    while !SplitGet(ops, i, small, large)
      invariant i < |ops|
      invariant forall j :: 0 <= j < i ==> !SplitGet(ops, j, small, large)
      decreases |ops| - i
    {
      i := i + 1;
    }
  }
}

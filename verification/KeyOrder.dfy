/** The order in which the keys of an object are visited: sorted, so fixed by the set of keys alone. */
module KeyOrder {

  /** Lexicographic order by scalar value. */
  predicate AtMost(a: string, b: string) {
    a == [] || (b != [] && (a[0] < b[0] || (a[0] == b[0] && AtMost(a[1..], b[1..]))))
  }

  /** A prefix comes first, and otherwise the first difference decides. */
  lemma {:induction false} AtMostIff(a: string, b: string)
    ensures AtMost(a, b)
            <==> a <= b || exists i :: 0 <= i < |a| && i < |b| && a[..i] == b[..i] && a[i] < b[i]
  {
    if a != [] && b != [] && a[0] == b[0] {
      AtMostIff(a[1..], b[1..]);
      assert a == [a[0]] + a[1..] && b == [b[0]] + b[1..];
      if i :| 0 <= i < |a[1..]| && i < |b[1..]| && a[1..][..i] == b[1..][..i] && a[1..][i] < b[1..][i] {
        assert a[..i + 1] == [a[0]] + a[1..][..i] && b[..i + 1] == [b[0]] + b[1..][..i];
        assert a[i + 1] < b[i + 1];
      }
      if i :| 0 <= i < |a| && i < |b| && a[..i] == b[..i] && a[i] < b[i] {
        assert a[1..][..i - 1] == a[..i][1..] && b[1..][..i - 1] == b[..i][1..];
        assert a[1..][i - 1] < b[1..][i - 1];
      }
    } else if a != [] && b != [] && a[0] < b[0] {
      assert a[..0] == b[..0];
    }
  }

  lemma {:induction false} AtMostTotal(a: string, b: string)
    ensures AtMost(a, b) || AtMost(b, a)
  {
    if a != [] && b != [] {
      AtMostTotal(a[1..], b[1..]);
    }
  }

  lemma {:induction false} AtMostAntisymmetric(a: string, b: string)
    requires AtMost(a, b) && AtMost(b, a)
    ensures a == b
  {
    if a != [] {
      AtMostAntisymmetric(a[1..], b[1..]);
      assert a == [a[0]] + a[1..] && b == [b[0]] + b[1..];
    }
  }

  lemma {:induction false} AtMostTransitive(a: string, b: string, c: string)
    requires AtMost(a, b) && AtMost(b, c)
    ensures AtMost(a, c)
  {
    if a != [] && a[0] == b[0] && b[0] == c[0] {
      AtMostTransitive(a[1..], b[1..], c[1..]);
    }
  }

  ghost predicate Ascending(s: seq<string>) {
    forall i, j :: 0 <= i < j < |s| ==> AtMost(s[i], s[j])
  }

  function Insert(k: string, s: seq<string>): (r: seq<string>)
    ensures multiset(r) == multiset{k} + multiset(s)
    ensures forall x :: x in r <==> x == k || x in s
  {
    if s == [] || AtMost(k, s[0]) then [k] + s
    else
      assert s == [s[0]] + s[1..];
      [s[0]] + Insert(k, s[1..])
  }

  function Sorted(s: seq<string>): (r: seq<string>)
    ensures multiset(r) == multiset(s)
    ensures forall x :: x in r <==> x in s
  {
    if s == [] then []
    else
      assert s == [s[0]] + s[1..];
      Insert(s[0], Sorted(s[1..]))
  }

  lemma {:induction false} InsertAscends(k: string, s: seq<string>)
    requires Ascending(s)
    ensures Ascending(Insert(k, s))
  {
    if s != [] {
      if AtMost(k, s[0]) {
        forall i | 0 <= i < |s| ensures AtMost(k, s[i]) {
          if i > 0 {
            AtMostTransitive(k, s[0], s[i]);
          }
        }
      } else {
        AtMostTotal(k, s[0]);
        InsertAscends(k, s[1..]);
        var r := Insert(k, s[1..]);
        forall i | 0 <= i < |r| ensures AtMost(s[0], r[i]) {
          assert r[i] in r;
        }
      }
    }
  }

  lemma {:induction false} SortedAscends(s: seq<string>)
    ensures Ascending(Sorted(s))
  {
    if s != [] {
      SortedAscends(s[1..]);
      InsertAscends(s[0], Sorted(s[1..]));
    }
  }

  /** A key above all others is sorted to the end. */
  lemma {:induction false} SortedWithGreatest(s: seq<string>, k: string)
    requires forall i :: 0 <= i < |s| ==> AtMost(s[i], k)
    ensures Sorted(s + [k]) == Sorted(s) + [k]
  {
    if s == [] {
      assert s + [k] == [k] && [k][1..] == [];
    } else {
      assert (s + [k])[1..] == s[1..] + [k];
      SortedWithGreatest(s[1..], k);
      InsertBelow(s[0], Sorted(s[1..]), k);
    }
  }

  lemma {:induction false} InsertBelow(x: string, s: seq<string>, k: string)
    requires AtMost(x, k)
    ensures Insert(x, s + [k]) == Insert(x, s) + [k]
  {
    if s != [] && !AtMost(x, s[0]) {
      assert (s + [k])[1..] == s[1..] + [k];
      InsertBelow(x, s[1..], k);
    } else {
      assert [x] + (s + [k]) == [x] + s + [k];
    }
  }

  lemma Cancel<T>(x: T, a: multiset<T>, b: multiset<T>)
    requires multiset{x} + a == multiset{x} + b
    ensures a == b
  {
    assert a == (multiset{x} + a) - multiset{x};
    assert b == (multiset{x} + b) - multiset{x};
  }

  lemma SplitHead(s: seq<string>)
    requires s != []
    ensures multiset(s) == multiset{s[0]} + multiset(s[1..])
  {
    assert s == [s[0]] + s[1..];
  }

  lemma TailAscends(s: seq<string>)
    requires Ascending(s) && s != []
    ensures Ascending(s[1..])
  {
  }

  lemma HeadIsLeast(s: seq<string>, t: seq<string>)
    requires Ascending(s) && s != [] && t != [] && multiset(s) == multiset(t)
    ensures AtMost(s[0], t[0])
  {
    assert t[0] in multiset(s);
    var i :| 0 <= i < |s| && s[i] == t[0];
    AtMostReflexive(s[0]);
  }

  /** Two ascending arrangements of the same strings are the same. */
  lemma {:induction false} AscendingUnique(s: seq<string>, t: seq<string>)
    requires Ascending(s) && Ascending(t) && multiset(s) == multiset(t)
    ensures s == t
  {
    hide AtMost, Ascending;
    assert |s| == |multiset(s)| == |multiset(t)| == |t|;
    if s != [] {
      TailAscends(s);
      TailAscends(t);
      HeadIsLeast(s, t);
      HeadIsLeast(t, s);
      AtMostAntisymmetric(s[0], t[0]);
      SplitHead(s);
      SplitHead(t);
      Cancel(s[0], multiset(s[1..]), multiset(t[1..]));
      AscendingUnique(s[1..], t[1..]);
      assert s == [s[0]] + s[1..] && t == [t[0]] + t[1..];
    }
  }

  lemma AtMostReflexive(a: string)
    ensures AtMost(a, a)
  {
    AtMostTotal(a, a);
  }

  /** Sorting forgets the order it was given. */
  lemma SortedForgetsOrder(s: seq<string>, t: seq<string>)
    requires multiset(s) == multiset(t)
    ensures Sorted(s) == Sorted(t)
  {
    SortedAscends(s);
    SortedAscends(t);
    AscendingUnique(Sorted(s), Sorted(t));
  }
}

/** The canonical identifier of a JSON value, which does not depend on the order of object keys. */
module JsonIdentifier {
  import opened Options
  import opened KeyOrder

  /** A decoded value.  A dictionary is a sequence of fields, in the order its keys happen to be listed. */
  datatype Json =
    | Object(fields: seq<Field>)
    | Array(items: seq<Json>)
    | Scalar(text: string)  // a string, number, boolean, date or URL, by the text the switch appends for it
    | Unknown

  datatype Field = Field(key: string, value: Json)

  function Keys(fields: seq<Field>): (r: seq<string>)
    ensures |r| == |fields| && forall i :: 0 <= i < |r| ==> r[i] == fields[i].key
  {
    seq(|fields|, i requires 0 <= i < |fields| => fields[i].key)
  }

  /** The position of a key. */
  function Find(fields: seq<Field>, key: string): (i: nat)
    requires key in Keys(fields)
    ensures i < |fields| && fields[i].key == key
  {
    if fields[0].key == key then 0
    else
      assert Keys(fields)[1..] == Keys(fields[1..]);
      1 + Find(fields[1..], key)
  }

  function Decimal(n: nat): string {
    if n < 10 then ["0123456789"[n]] else Decimal(n / 10) + ["0123456789"[n % 10]]
  }

  /** Reading decimal digits back. */
  function Value(s: string): int {
    if s == [] then 0 else Value(s[..|s| - 1]) * 10 + (s[|s| - 1] as int - '0' as int)
  }

  /** The text of an index denotes that index, without leading zeros. */
  lemma {:induction false} DecimalRoundTrip(n: nat)
    ensures Value(Decimal(n)) == n
    ensures forall i :: 0 <= i < |Decimal(n)| ==> '0' <= Decimal(n)[i] <= '9'
    ensures n >= 10 ==> |Decimal(n)| > 1
    ensures n > 0 ==> |Decimal(n)| >= 1 && Decimal(n)[0] != '0'
  {
    if n < 10 {
      assert Decimal(n)[..0] == [];
    } else {
      DecimalRoundTrip(n / 10);
      var s := Decimal(n);
      assert s[..|s| - 1] == Decimal(n / 10);
    }
  }

  // The identifier.

  function Identifier(json: Json): string
    decreases json, 2
  {
    match json
    case Object(fields) => OfFields(json, Sorted(Keys(fields)))
    case Array(items) => OfItems(json, 0)
    case Scalar(text) => text
    case Unknown => "UnknownType"
  }

  function OfFields(json: Json, keys: seq<string>): string
    requires json.Object? && forall k :: k in keys ==> k in Keys(json.fields)
    decreases json, 1, |keys|
  {
    if keys == [] then ""
    else
      var i := Find(json.fields, keys[0]);
      keys[0] + Identifier(json.fields[i].value) + OfFields(json, keys[1..])
  }

  function OfItems(json: Json, i: nat): string
    requires json.Array? && i <= |json.items|
    decreases json, 1, |json.items| - i
  {
    if i == |json.items| then "" else Decimal(i) + Identifier(json.items[i]) + OfItems(json, i + 1)
  }

  /** The recursive accumulation of the source, from the parent's text. */
  method GenerateJsonUniqueIdentifier(json: Json, parent: Option<string>) returns (uniqueIdentifier: string)
    ensures uniqueIdentifier == (if parent.Some? then parent.value else "") + Identifier(json)
    decreases json
  {
    hide Sorted, Keys, Find, Decimal;
    uniqueIdentifier := if parent.Some? then parent.value else "";
    ghost var start := uniqueIdentifier;
    match json {
      case Object(fields) =>
        var keys := Sorted(Keys(fields));
        for i := 0 to |keys|
          invariant uniqueIdentifier + OfFields(json, keys[i..]) == start + Identifier(json)
        {
          assert keys[i] in keys;
          var value := fields[Find(fields, keys[i])].value;
          var part := GenerateJsonUniqueIdentifier(value, Some(keys[i]));
          assert keys[i..][1..] == keys[i + 1..];
          uniqueIdentifier := uniqueIdentifier + part;
        }
      case Array(items) =>
        for i := 0 to |items|
          invariant uniqueIdentifier + OfItems(json, i) == start + Identifier(json)
        {
          var part := GenerateJsonUniqueIdentifier(items[i], Some(Decimal(i)));
          uniqueIdentifier := uniqueIdentifier + part;
        }
      case Scalar(text) => uniqueIdentifier := uniqueIdentifier + text;
      case Unknown => uniqueIdentifier := uniqueIdentifier + "UnknownType";
    }
  }

  // What the identifier is made of.

  lemma IdentifierOfLeaves(text: string)
    ensures Identifier(Object([])) == "" && Identifier(Array([])) == ""
    ensures Identifier(Scalar(text)) == text && Identifier(Unknown) == "UnknownType"
  {
    assert Keys([]) == [];
  }

  /** One more item adds the text of its index and its own identifier. */
  lemma IdentifierOfLongerArray(items: seq<Json>, x: Json)
    ensures Identifier(Array(items + [x])) == Identifier(Array(items)) + Decimal(|items|) + Identifier(x)
  {
    ItemsThenOneMore(items, x, 0);
  }

  lemma {:induction false} ItemsThenOneMore(items: seq<Json>, x: Json, i: nat)
    requires i <= |items|
    ensures OfItems(Array(items + [x]), i) == OfItems(Array(items), i) + Decimal(|items|) + Identifier(x)
    decreases |items| - i
  {
    hide Decimal, Identifier;
    if i < |items| {
      ItemsThenOneMore(items, x, i + 1);
    } else {
      assert OfItems(Array(items + [x]), i + 1) == "";
    }
  }

  /**
   One more field, with a key above all others, adds the key and the identifier of its value.
   As the order of fields does not matter, this decides every dictionary.
   */
  lemma IdentifierOfLargerObject(fields: seq<Field>, k: string, v: Json)
    requires forall i :: 0 <= i < |fields| ==> AtMost(fields[i].key, k) && fields[i].key != k
    ensures Identifier(Object(fields + [Field(k, v)])) == Identifier(Object(fields)) + k + Identifier(v)
  {
    var larger := fields + [Field(k, v)];
    assert Keys(larger) == Keys(fields) + [k];
    SortedWithGreatest(Keys(fields), k);
    FieldsThenOneMore(fields, k, v, Sorted(Keys(fields)));
  }

  lemma {:induction false} FieldsThenOneMore(fields: seq<Field>, k: string, v: Json, keys: seq<string>)
    requires forall q :: q in keys ==> q in Keys(fields)
    requires k !in Keys(fields)
    requires Keys(fields + [Field(k, v)]) == Keys(fields) + [k]
    ensures OfFields(Object(fields + [Field(k, v)]), keys + [k]) == OfFields(Object(fields), keys) + k + Identifier(v)
    decreases |keys|
  {
    hide Keys, Identifier;
    var larger := fields + [Field(k, v)];
    if keys == [] {
      assert keys + [k] == [k] && [k][1..] == [];
      FindLast(fields, k, v);
    } else {
      assert (keys + [k])[1..] == keys[1..] + [k];
      FindEarlier(fields, k, v, keys[0]);
      FieldsThenOneMore(fields, k, v, keys[1..]);
    }
  }

  lemma {:induction false} FindEarlier(fields: seq<Field>, k: string, v: Json, key: string)
    requires key in Keys(fields)
    ensures key in Keys(fields + [Field(k, v)]) && Find(fields + [Field(k, v)], key) == Find(fields, key)
  {
    assert Keys(fields + [Field(k, v)]) == Keys(fields) + [k];
    if fields[0].key != key {
      assert (fields + [Field(k, v)])[1..] == fields[1..] + [Field(k, v)];
      assert Keys(fields)[1..] == Keys(fields[1..]);
      FindEarlier(fields[1..], k, v, key);
    }
  }

  lemma {:induction false} FindLast(fields: seq<Field>, k: string, v: Json)
    requires k !in Keys(fields)
    ensures k in Keys(fields + [Field(k, v)]) && Find(fields + [Field(k, v)], k) == |fields|
  {
    assert Keys(fields + [Field(k, v)]) == Keys(fields) + [k];
    if fields != [] {
      assert (fields + [Field(k, v)])[1..] == fields[1..] + [Field(k, v)];
      assert Keys(fields)[1..] == Keys(fields[1..]);
      assert Keys(fields)[0] in Keys(fields);
      FindLast(fields[1..], k, v);
    }
  }

  // Independence of key order.

  /** No object, at any depth, lists a key twice: what a dictionary guarantees. */
  ghost predicate WellFormed(json: Json) {
    match json
    case Object(fields) =>
      && (forall i, j :: 0 <= i < j < |fields| ==> fields[i].key != fields[j].key)
      && (forall i :: 0 <= i < |fields| ==> WellFormed(fields[i].value))
    case Array(items) => forall i :: 0 <= i < |items| ==> WellFormed(items[i])
    case _ => true
  }

  /** The same value, up to the order in which objects list their keys, at any depth. */
  ghost predicate Same(a: Json, b: Json) {
    match (a, b)
    case (Object(f), Object(g)) =>
      && multiset(Keys(f)) == multiset(Keys(g))
      && (forall i, j :: 0 <= i < |f| && 0 <= j < |g| && f[i].key == g[j].key ==> Same(f[i].value, g[j].value))
    case (Array(s), Array(t)) => |s| == |t| && forall i :: 0 <= i < |s| ==> Same(s[i], t[i])
    case _ => a == b
  }

  /** Values that differ only in the order of keys, at any depth, have one identifier. */
  lemma {:induction false} IdentifierIgnoresKeyOrder(a: Json, b: Json)
    requires Same(a, b)
    ensures Identifier(a) == Identifier(b)
    decreases a, 1
  {
    match a
    case Object(f) =>
      SortedForgetsOrder(Keys(f), Keys(b.fields));
      FieldsIgnoreKeyOrder(a, b, Sorted(Keys(f)));
    case Array(s) => ItemsIgnoreKeyOrder(a, b, 0);
    case _ =>
  }

  lemma {:induction false} FieldsIgnoreKeyOrder(a: Json, b: Json, keys: seq<string>)
    requires a.Object? && b.Object? && Same(a, b)
    requires forall k :: k in keys ==> k in Keys(a.fields) && k in Keys(b.fields)
    ensures OfFields(a, keys) == OfFields(b, keys)
    decreases a, 0, |keys|
  {
    if keys != [] {
      var i, j := Find(a.fields, keys[0]), Find(b.fields, keys[0]);
      assert Same(a.fields[i].value, b.fields[j].value);
      IdentifierIgnoresKeyOrder(a.fields[i].value, b.fields[j].value);
      FieldsIgnoreKeyOrder(a, b, keys[1..]);
    }
  }

  lemma {:induction false} ItemsIgnoreKeyOrder(a: Json, b: Json, i: nat)
    requires a.Array? && b.Array? && Same(a, b) && i <= |a.items|
    ensures OfItems(a, i) == OfItems(b, i)
    decreases a, 0, |a.items| - i
  {
    if i < |a.items| {
      IdentifierIgnoresKeyOrder(a.items[i], b.items[i]);
      ItemsIgnoreKeyOrder(a, b, i + 1);
    }
  }

  lemma {:induction false} SameReflexive(a: Json)
    requires WellFormed(a)
    ensures Same(a, a)
  {
    match a
    case Object(f) =>
      forall i, j | 0 <= i < |f| && 0 <= j < |f| && f[i].key == f[j].key ensures Same(f[i].value, f[j].value) {
        assert i == j;
        SameReflexive(f[i].value);
      }
    case Array(s) =>
      forall i | 0 <= i < |s| ensures Same(s[i], s[i]) {
        SameReflexive(s[i]);
      }
    case _ =>
  }

  /** In particular, listing the fields of a dictionary in another order changes nothing. */
  lemma ShuffledFieldsSameIdentifier(f: seq<Field>, g: seq<Field>)
    requires WellFormed(Object(f)) && multiset(f) == multiset(g)
    ensures Identifier(Object(f)) == Identifier(Object(g))
  {
    KeysOfShuffled(f, g);
    forall i, j | 0 <= i < |f| && 0 <= j < |g| && f[i].key == g[j].key ensures Same(f[i].value, g[j].value) {
      assert g[j] in multiset(f);
      var m :| 0 <= m < |f| && f[m] == g[j];
      assert m == i;
      SameReflexive(f[i].value);
    }
    IdentifierIgnoresKeyOrder(Object(f), Object(g));
  }

  lemma KeysWithout(g: seq<Field>, j: nat)
    requires j < |g|
    ensures multiset(Keys(g)) == multiset{g[j].key} + multiset(Keys(g[..j] + g[j + 1..]))
  {
    var keys := Keys(g);
    assert keys == keys[..j] + [keys[j]] + keys[j + 1..];
    assert Keys(g[..j] + g[j + 1..]) == keys[..j] + keys[j + 1..];
  }

  lemma FieldsWithout(g: seq<Field>, j: nat)
    requires j < |g|
    ensures multiset(g) == multiset{g[j]} + multiset(g[..j] + g[j + 1..])
  {
    assert g == g[..j] + [g[j]] + g[j + 1..];
  }

  lemma {:induction false} KeysOfShuffled(f: seq<Field>, g: seq<Field>)
    requires multiset(f) == multiset(g)
    ensures multiset(Keys(f)) == multiset(Keys(g))
  {
    hide Keys;
    assert |f| == |multiset(f)| == |multiset(g)| == |g|;
    if f == [] {
      assert f == g;
    } else {
      assert f[0] in multiset(g);
      var j :| 0 <= j < |g| && g[j] == f[0];
      RestShuffled(f, g, j);
      KeysWithout(f, 0);
      KeysWithout(g, j);
      KeysOfShuffled(f[..0] + f[1..], g[..j] + g[j + 1..]);
    }
  }

  lemma RestShuffled(f: seq<Field>, g: seq<Field>, j: nat)
    requires multiset(f) == multiset(g) && f != [] && j < |g| && g[j] == f[0]
    ensures multiset(f[..0] + f[1..]) == multiset(g[..j] + g[j + 1..])
  {
    FieldsWithout(f, 0);
    FieldsWithout(g, j);
    Cancel(f[0], multiset(f[..0] + f[1..]), multiset(g[..j] + g[j + 1..]));
  }
}

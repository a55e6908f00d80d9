/** The keyword lookup, proved to agree with a plain search of the keyword list. */
module KeywordHash {
  import opened Options
  import opened KeywordTokens
  import opened KeywordTables
  import opened KeywordBytes
  import opened KeywordChecks

  const SQLITE_OK := 0
  const SQLITE_ERROR := 1

  /** The fold of the comparison loop: it clears bit 5, which also sends byte 0x7F to the underscore. */
  function Fold(c: bv8): bv8 {
    c & 0xDF
  }

  /** The first `n` bytes of `z` read as the keyword `w`, up to the fold. */
  ghost predicate Reads(z: seq<bv8>, n: int, w: string)
    requires n <= |z|
  {
    n == |w| && forall j :: 0 <= j < |w| ==> Fold(z[j]) == Byte(w[j])
  }

  /** The first keyword, from the `i`-th on, that the token reads as. */
  ghost function Search(z: seq<bv8>, n: int, i: nat): (r: Option<nat>)
    requires n <= |z| && i <= KEYWORDS
    ensures r.Some? ==> i <= r.value < KEYWORDS && Reads(z, n, Word(r.value))
    ensures r == None ==> forall k :: i <= k < KEYWORDS ==> !Reads(z, n, Word(k))
    decreases KEYWORDS - i
  {
    hide Word;
    if i == KEYWORDS then None
    else if Reads(z, n, Word(i)) then Some(i)
    else Search(z, n, i + 1)
  }

  /** What a plain search of the keyword list makes of a token. */
  ghost function Code(z: seq<bv8>, n: int, otherwise: int): int
    requires n <= |z|
  {
    var i := Search(z, n, 0);
    if i.Some? then aKWCode(i.value) else otherwise
  }

  // Why the chain of one bucket suffices.

  lemma LowerOfFold(c: bv8, w: char)
    requires Fold(c) == Byte(w) && 'A' <= w <= 'Z'
    ensures CharMap(c) == CharMap(Byte(w))
  {
    assert 65 <= Byte(w) <= 90;
  }

  /** The bucket depends on the lower-cased end bytes only. */
  lemma BucketOfLower(a: bv8, b: bv8, c: bv8, d: bv8, n: nat)
    requires n < 0x8000_0000 && CharMap(a) == CharMap(c) && CharMap(b) == CharMap(d)
    ensures Bucket(a, b, n) == Bucket(c, d, n)
  {
    hide CharMap, LowerBucket;
  }

  /** Whatever the case of its letters, a token that reads as keyword `i` hashes to the chain of `i`. */
  lemma MatchOnChain(z: seq<bv8>, n: int, i: nat)
    requires n <= |z| < 0x8000_0000 && i < KEYWORDS && Reads(z, n, Word(i))
    ensures n >= 2 && OnChain(aKWHash(Bucket(z[0], z[n - 1], n)), i)
  {
    hide Word, aKWHash, aKWNext, aKWLen, aKWOffset, OnChain, NotOnChain, TextHas, CharMap, Byte, Fold, Bucket;
    AllSound(i);
    var w := Word(i);
    LowerOfFold(z[0], w[0]);
    LowerOfFold(z[n - 1], w[n - 1]);
    BucketOfLower(z[0], z[n - 1], Byte(w[0]), Byte(w[n - 1]), n);
  }

  lemma {:induction false} NotOnChainDiffers(h: nat, i: nat, k: nat)
    requires h <= KEYWORDS && i < KEYWORDS && k < KEYWORDS
    requires NotOnChain(h, i) && OnChain(h, k)
    ensures Word(k) != Word(i)
    decreases h
  {
    hide Word, aKWNext;
    if h - 1 != k {
      NotOnChainDiffers(aKWNext(h - 1), i, k);
    }
  }

  /** Two keywords on one chain have different texts. */
  lemma {:induction false} ChainTextsDiffer(h: nat, i: nat, k: nat)
    requires h <= KEYWORDS && i < KEYWORDS && k < KEYWORDS && i != k
    requires OnChain(h, i) && OnChain(h, k)
    ensures Word(i) != Word(k)
    decreases h
  {
    hide Word, aKWNext, Sound;
    if h - 1 == i {
      SoundDown(i);
      NotOnChainDiffers(aKWNext(i), i, k);
    } else if h - 1 == k {
      SoundDown(k);
      NotOnChainDiffers(aKWNext(k), k, i);
    } else {
      ChainTextsDiffer(aKWNext(h - 1), i, k);
    }
  }

  lemma SoundDown(i: nat)
    requires i < KEYWORDS
    ensures NotOnChain(aKWNext(i), i)
  {
    hide Word, aKWHash, aKWNext, aKWLen, aKWOffset, OnChain, NotOnChain, TextHas;
    AllSound(i);
  }

  lemma ByteInjective(a: char, b: char)
    requires Letter(a) && Letter(b) && Byte(a) == Byte(b)
    ensures a == b
  {
  }

  lemma LettersOnly(i: nat, j: nat)
    requires i < KEYWORDS && j < |Word(i)|
    ensures Letter(Word(i)[j])
  {
    hide Word, aKWHash, aKWNext, aKWLen, aKWOffset, OnChain, NotOnChain, zKWText;
    AllSound(i);
    assert zKWText(aKWOffset(i) + j) == Word(i)[j];
  }

  /** No token reads as two keywords. */
  lemma OneReading(z: seq<bv8>, n: int, i: nat, k: nat)
    requires n <= |z| < 0x8000_0000 && i < KEYWORDS && k < KEYWORDS
    requires Reads(z, n, Word(i)) && Reads(z, n, Word(k))
    ensures i == k
  {
    hide Word, aKWHash, aKWNext, OnChain, Byte, Letter;
    MatchOnChain(z, n, i);
    MatchOnChain(z, n, k);
    var v, w := Word(i), Word(k);
    forall j | 0 <= j < |v| ensures v[j] == w[j] {
      LettersOnly(i, j);
      LettersOnly(k, j);
      ByteInjective(v[j], w[j]);
    }
    assert v == w;
    if i != k {
      ChainTextsDiffer(aKWHash(Bucket(z[0], z[n - 1], n)), i, k);
    }
  }

  /** Whatever keyword the token reads as is on the chain from `h`. */
  ghost predicate AllOnChain(z: seq<bv8>, n: int, h: nat)
    requires n <= |z| && h <= KEYWORDS
  {
    forall k :: 0 <= k < KEYWORDS && Reads(z, n, Word(k)) ==> OnChain(h, k)
  }

  lemma StartOfChain(z: seq<bv8>, n: int)
    requires 2 <= n <= |z| < 0x8000_0000
    ensures AllOnChain(z, n, aKWHash(Bucket(z[0], z[n - 1], n)))
  {
    hide Word, aKWHash, OnChain, Reads, Bucket;
    forall k | 0 <= k < KEYWORDS && Reads(z, n, Word(k)) ensures OnChain(aKWHash(Bucket(z[0], z[n - 1], n)), k) {
      MatchOnChain(z, n, k);
    }
  }

  /** A keyword that the token does not read as can be passed over. */
  lemma NextOnChain(z: seq<bv8>, n: int, i: nat)
    requires n <= |z| && i < KEYWORDS && AllOnChain(z, n, i + 1) && !Reads(z, n, Word(i))
    ensures AllOnChain(z, n, aKWNext(i))
  {
    hide Word, aKWNext, Reads;
  }

  lemma EndOfChain(z: seq<bv8>, n: int)
    requires n <= |z| && AllOnChain(z, n, 0)
    ensures Search(z, n, 0) == None
  {
    hide Word, Reads;
    var found := Search(z, n, 0);
    assert found.Some? ==> !OnChain(0, found.value);
  }

  // The lookup itself.

  /** Walks one collision chain; `pType` is written only when a keyword is found. */
  method KeywordCode(z: seq<bv8>, n: int, pType: int) returns (r: int, newType: int)
    requires n <= |z| < 0x8000_0000
    ensures r == n
    ensures newType == Code(z, n, pType)
  {
    hide Word, aKWHash, aKWNext, aKWLen, aKWOffset, aKWCode, zKWText;
    hide Byte, Fold, Bucket, OnChain, NotOnChain, AllOnChain;
    newType := pType;
    ghost var found := Search(z, n, 0);
    if n >= 2 {
      var i: int := aKWHash(Bucket(z[0], z[n - 1], n)) - 1;
      StartOfChain(z, n);
      while i >= 0
        invariant -1 <= i < KEYWORDS && newType == pType
        invariant AllOnChain(z, n, i + 1)
        decreases i
      {
        AllSound(i);
        if aKWLen(i) != n {
          NextOnChain(z, n, i);
          i := aKWNext(i) - 1;
          continue;
        }
        var j, zKW := 0, aKWOffset(i);
        while j < n && Fold(z[j]) == Byte(zKWText(zKW + j))
          invariant 0 <= j <= n
          invariant forall m :: 0 <= m < j ==> Fold(z[m]) == Byte(Word(i)[m])
        {
          j := j + 1;
        }
        if j < n {
          NextOnChain(z, n, i);
          i := aKWNext(i) - 1;
          continue;
        }
        assert Reads(z, n, Word(i));
        OneReading(z, n, i, found.value);
        newType := aKWCode(i);
        break;
      }
      if i < 0 {
        EndOfChain(z, n);
      }
    } else if found.Some? {
      MatchOnChain(z, n, found.value);
    }
    r := n;
  }

  method SqliteKeywordCode(z: seq<bv8>, n: int) returns (id: int)
    requires n <= |z| < 0x8000_0000
    ensures id == Code(z, n, TK_ID)
  {
    id := TK_ID;
    var _, code := KeywordCode(z, n, id);
    id := code;
  }

  /** Answers where the text of keyword `i` is; out of range, the two out-parameters are left alone. */
  method SqliteKeywordName(i: int, pzName: nat, pnName: int) returns (status: int, zName: nat, nName: int)
    ensures status == SQLITE_OK <==> 0 <= i < KEYWORDS
    ensures status == SQLITE_OK ==> nName == |Word(i)| && TextHas(zName, Word(i))
    ensures status != SQLITE_OK ==> status == SQLITE_ERROR && zName == pzName && nName == pnName
  {
    hide Word, aKWLen, aKWOffset, zKWText, TextHas, OnChain;
    if i < 0 || i >= SqliteKeywordCount() {
      return SQLITE_ERROR, pzName, pnName;
    }
    AllSound(i);
    return SQLITE_OK, aKWOffset(i), aKWLen(i);
  }

  function SqliteKeywordCount(): int {
    KEYWORDS
  }

  /** A name is a keyword exactly when it reads as an entry of the list. */
  method SqliteKeywordCheck(zName: seq<bv8>, nName: int) returns (isKeyword: bool)
    requires nName <= |zName| < 0x8000_0000
    ensures isKeyword <==> exists i :: 0 <= i < KEYWORDS && Reads(zName, nName, Word(i))
  {
    hide Word, aKWCode;
    var code := SqliteKeywordCode(zName, nName);
    return TK_ID != code;
  }

  // What the lookup makes of the keywords themselves.

  /** Every spelling of keyword `i`, whatever the case of its letters, gets the symbol of keyword `i`. */
  lemma CodeOfKeyword(z: seq<bv8>, n: int, i: nat, otherwise: int)
    requires n <= |z| < 0x8000_0000 && i < KEYWORDS && Reads(z, n, Word(i))
    ensures Code(z, n, otherwise) == aKWCode(i) != TK_ID
  {
    hide Word, aKWCode, Reads;
    OneReading(z, n, i, Search(z, n, 0).value);
  }

  /** Equality up to the case of ASCII letters, as the lower-casing table has it. */
  ghost predicate SameIgnoringCase(z: seq<bv8>, n: int, w: string)
    requires n <= |z|
  {
    n == |w| && forall j :: 0 <= j < |w| ==> CharMap(z[j]) == CharMap(Byte(w[j]))
  }

  /** The token with every byte 0x7F replaced by an underscore. */
  function Undel(z: seq<bv8>): (r: seq<bv8>)
    ensures |r| == |z|
    ensures forall j :: 0 <= j < |z| ==> r[j] == if z[j] == 0x7F then 0x5F else z[j]
  {
    seq(|z|, j requires 0 <= j < |z| => if z[j] == 0x7F then 0x5F else z[j])
  }

  predicate HasDel(z: seq<bv8>, n: int)
    requires n <= |z|
  {
    exists j :: 0 <= j < n && z[j] == 0x7F
  }

  /** For one byte, the fold is ASCII case-insensitivity once 0x7F is taken for an underscore. */
  lemma FoldIsCaseOfUndel(c: bv8, w: char)
    requires Letter(w)
    ensures Fold(c) == Byte(w) <==> CharMap(if c == 0x7F then 0x5F else c) == CharMap(Byte(w))
    ensures CharMap(0x7F) != CharMap(Byte(w))
  {
  }

  /** A token reads as a keyword exactly when it equals it up to case once every 0x7F is taken for an underscore. */
  lemma ReadsIffUndelSame(z: seq<bv8>, n: int, i: nat)
    requires n <= |z| && i < KEYWORDS
    ensures Reads(z, n, Word(i)) <==> SameIgnoringCase(Undel(z), n, Word(i))
    ensures SameIgnoringCase(z, n, Word(i)) <==> Reads(z, n, Word(i)) && !HasDel(z, n)
  {
    hide Word, Byte, CharMap, Fold, Letter;
    var w := Word(i);
    if n == |w| {
      forall j | 0 <= j < n
        ensures Fold(z[j]) == Byte(w[j]) <==> CharMap(Undel(z)[j]) == CharMap(Byte(w[j]))
        ensures CharMap(0x7F) != CharMap(Byte(w[j]))
      {
        LettersOnly(i, j);
        FoldIsCaseOfUndel(z[j], w[j]);
      }
    }
  }

  /** The token is a keyword up to the case of its letters, and nothing else. */
  ghost predicate KeywordIgnoringCase(z: seq<bv8>, n: int)
    requires n <= |z|
  {
    exists i :: 0 <= i < KEYWORDS && SameIgnoringCase(z, n, Word(i))
  }

  /**
   What `sqlite3_keyword_check` accepts, against the case-insensitive keywords: it agrees
   with them except on a token with a byte 0x7F that is a keyword once that is an underscore.
   */
  lemma CheckIgnoresCaseIff(z: seq<bv8>, n: int)
    requires n <= |z|
    ensures (exists i :: 0 <= i < KEYWORDS && Reads(z, n, Word(i))) <==> KeywordIgnoringCase(Undel(z), n)
    ensures ((exists i :: 0 <= i < KEYWORDS && Reads(z, n, Word(i))) <==> KeywordIgnoringCase(z, n))
            <==> !(HasDel(z, n) && KeywordIgnoringCase(Undel(z), n))
  {
    hide Word, Reads, SameIgnoringCase, HasDel;
    forall i | 0 <= i < KEYWORDS
      ensures Reads(z, n, Word(i)) <==> SameIgnoringCase(Undel(z), n, Word(i))
      ensures SameIgnoringCase(z, n, Word(i)) <==> Reads(z, n, Word(i)) && !HasDel(z, n)
    {
      ReadsIffUndelSame(z, n, i);
    }
  }

  /** The bytes a keyword's name consists of. */
  function NameBytes(w: string): (z: seq<bv8>)
    ensures |z| == |w|
  {
    seq(|w|, j requires 0 <= j < |w| => Byte(w[j]))
  }

  lemma LettersFoldToThemselves(c: char)
    requires Letter(c)
    ensures Fold(Byte(c)) == Byte(c)
  {
  }

  /** Round trip: every name that `sqlite3_keyword_name` gives out is recognised, with its own symbol. */
  lemma NamesAreKeywords(i: nat)
    requires i < KEYWORDS
    ensures Code(NameBytes(Word(i)), |Word(i)|, TK_ID) == aKWCode(i) != TK_ID
  {
    hide Word, aKWCode, aKWHash, aKWNext, aKWLen, aKWOffset, OnChain, NotOnChain, Byte, Fold, Letter;
    var w := Word(i);
    forall j | 0 <= j < |w| ensures Fold(NameBytes(w)[j]) == Byte(w[j]) {
      LettersOnly(i, j);
      LettersFoldToThemselves(w[j]);
    }
    AllSound(i);
    CodeOfKeyword(NameBytes(w), |w|, i, TK_ID);
  }

  lemma EntryOfCurrentDate()
    ensures Word(69) == "CURRENT_DATE" && aKWCode(69) == TK_CTIME_KW
  {
  }

  lemma FoldOfDel()
    ensures Fold(0x7F) == Byte('_')
  {
  }

  /** An instance of the exception: CURRENT_DATE with byte 0x7F for its underscore is taken for the keyword. */
  lemma DelPassesForUnderscore(z: seq<bv8>)
    requires z == NameBytes("CURRENT_DATE")[7 := 0x7F]
    ensures Code(z, 12, TK_ID) == TK_CTIME_KW && !SameIgnoringCase(z, 12, Word(69))
  {
    EntryOfCurrentDate();
    hide Word, aKWCode, Byte, Fold, CharMap;
    var w := Word(69);
    FoldOfDel();
    assert w[7] == '_';
    forall j | 0 <= j < 12 ensures Fold(z[j]) == Byte(w[j]) {
      LettersFoldToThemselves(w[j]);
    }
    CodeOfKeyword(z, 12, 69, TK_ID);
    assert z[7] == 0x7F;
    ReadsIffUndelSame(z, 12, 69);
  }
}

/**
 Which parser symbol belongs to which keyword, told by name.  The list is alphabetical, so
 it does not depend on the order of the tables.
 */
module KeywordSymbols {
  import opened KeywordTokens
  import opened KeywordTables
  import opened KeywordHash

  datatype Keyword = Keyword(text: string, symbol: int)

  /** The keywords and their symbols, in alphabetical order. */
  function Listed(k: nat): Keyword
    requires k < KEYWORDS
  {
    if k < 69 then ListedLow(k) else ListedHigh(k)
  }

  function ListedLow(k: nat): Keyword
    requires k < 69
  {
    if k < 3 then [Keyword("ABORT", TK_ABORT), Keyword("ACTION", TK_ACTION), Keyword("ADD", TK_ADD)][k - 0] else
    if k < 6 then [Keyword("AFTER", TK_AFTER), Keyword("ALL", TK_ALL), Keyword("ALTER", TK_ALTER)][k - 3] else
    if k < 9 then [Keyword("ANALYZE", TK_ANALYZE), Keyword("AND", TK_AND), Keyword("AS", TK_AS)][k - 6] else
    if k < 12 then [Keyword("ASC", TK_ASC), Keyword("ATTACH", TK_ATTACH),
      Keyword("AUTOINCREMENT", TK_AUTOINCR)][k - 9] else
    if k < 15 then [Keyword("BEFORE", TK_BEFORE), Keyword("BEGIN", TK_BEGIN),
      Keyword("BETWEEN", TK_BETWEEN)][k - 12] else
    if k < 18 then [Keyword("BY", TK_BY), Keyword("CASCADE", TK_CASCADE), Keyword("CASE", TK_CASE)][k - 15] else
    if k < 21 then [Keyword("CAST", TK_CAST), Keyword("CHECK", TK_CHECK), Keyword("COLLATE", TK_COLLATE)][k - 18] else
    if k < 24 then [Keyword("COLUMN", TK_COLUMNKW), Keyword("COMMIT", TK_COMMIT),
      Keyword("CONFLICT", TK_CONFLICT)][k - 21] else
    if k < 27 then [Keyword("CONSTRAINT", TK_CONSTRAINT), Keyword("CREATE", TK_CREATE),
      Keyword("CROSS", TK_JOIN_KW)][k - 24] else
    if k < 30 then [Keyword("CURRENT", TK_CURRENT), Keyword("CURRENT_DATE", TK_CTIME_KW),
      Keyword("CURRENT_TIME", TK_CTIME_KW)][k - 27] else
    if k < 33 then [Keyword("CURRENT_TIMESTAMP", TK_CTIME_KW), Keyword("DATABASE", TK_DATABASE),
      Keyword("DEFAULT", TK_DEFAULT)][k - 30] else
    if k < 36 then [Keyword("DEFERRABLE", TK_DEFERRABLE), Keyword("DEFERRED", TK_DEFERRED),
      Keyword("DELETE", TK_DELETE)][k - 33] else
    if k < 39 then [Keyword("DESC", TK_DESC), Keyword("DETACH", TK_DETACH),
      Keyword("DISTINCT", TK_DISTINCT)][k - 36] else
    if k < 42 then [Keyword("DO", TK_DO), Keyword("DROP", TK_DROP), Keyword("EACH", TK_EACH)][k - 39] else
    if k < 45 then [Keyword("ELSE", TK_ELSE), Keyword("END", TK_END), Keyword("ESCAPE", TK_ESCAPE)][k - 42] else
    if k < 48 then [Keyword("EXCEPT", TK_EXCEPT), Keyword("EXCLUSIVE", TK_EXCLUSIVE),
      Keyword("EXISTS", TK_EXISTS)][k - 45] else
    if k < 51 then [Keyword("EXPLAIN", TK_EXPLAIN), Keyword("FAIL", TK_FAIL),
      Keyword("FILTER", TK_FILTER)][k - 48] else
    if k < 54 then [Keyword("FOLLOWING", TK_FOLLOWING), Keyword("FOR", TK_FOR),
      Keyword("FOREIGN", TK_FOREIGN)][k - 51] else
    if k < 57 then [Keyword("FROM", TK_FROM), Keyword("FULL", TK_JOIN_KW), Keyword("GLOB", TK_LIKE_KW)][k - 54] else
    if k < 60 then [Keyword("GROUP", TK_GROUP), Keyword("HAVING", TK_HAVING), Keyword("IF", TK_IF)][k - 57] else
    if k < 63 then [Keyword("IGNORE", TK_IGNORE), Keyword("IMMEDIATE", TK_IMMEDIATE),
      Keyword("IN", TK_IN)][k - 60] else
    if k < 66 then [Keyword("INDEX", TK_INDEX), Keyword("INDEXED", TK_INDEXED),
      Keyword("INITIALLY", TK_INITIALLY)][k - 63] else
    [Keyword("INNER", TK_JOIN_KW), Keyword("INSERT", TK_INSERT), Keyword("INSTEAD", TK_INSTEAD)][k - 66]
  }

  function ListedHigh(k: nat): Keyword
    requires 69 <= k < KEYWORDS
  {
    if k < 72 then [Keyword("INTERSECT", TK_INTERSECT), Keyword("INTO", TK_INTO), Keyword("IS", TK_IS)][k - 69] else
    if k < 75 then [Keyword("ISNULL", TK_ISNULL), Keyword("JOIN", TK_JOIN), Keyword("KEY", TK_KEY)][k - 72] else
    if k < 78 then [Keyword("LEFT", TK_JOIN_KW), Keyword("LIKE", TK_LIKE_KW), Keyword("LIMIT", TK_LIMIT)][k - 75] else
    if k < 81 then [Keyword("MATCH", TK_MATCH), Keyword("NATURAL", TK_JOIN_KW), Keyword("NO", TK_NO)][k - 78] else
    if k < 84 then [Keyword("NOT", TK_NOT), Keyword("NOTHING", TK_NOTHING),
      Keyword("NOTNULL", TK_NOTNULL)][k - 81] else
    if k < 87 then [Keyword("NULL", TK_NULL), Keyword("OF", TK_OF), Keyword("OFFSET", TK_OFFSET)][k - 84] else
    if k < 90 then [Keyword("ON", TK_ON), Keyword("OR", TK_OR), Keyword("ORDER", TK_ORDER)][k - 87] else
    if k < 93 then [Keyword("OUTER", TK_JOIN_KW), Keyword("OVER", TK_OVER),
      Keyword("PARTITION", TK_PARTITION)][k - 90] else
    if k < 96 then [Keyword("PLAN", TK_PLAN), Keyword("PRAGMA", TK_PRAGMA),
      Keyword("PRECEDING", TK_PRECEDING)][k - 93] else
    if k < 99 then [Keyword("PRIMARY", TK_PRIMARY), Keyword("QUERY", TK_QUERY),
      Keyword("RAISE", TK_RAISE)][k - 96] else
    if k < 102 then [Keyword("RANGE", TK_RANGE), Keyword("RECURSIVE", TK_RECURSIVE),
      Keyword("REFERENCES", TK_REFERENCES)][k - 99] else
    if k < 105 then [Keyword("REGEXP", TK_LIKE_KW), Keyword("REINDEX", TK_REINDEX),
      Keyword("RELEASE", TK_RELEASE)][k - 102] else
    if k < 108 then [Keyword("RENAME", TK_RENAME), Keyword("REPLACE", TK_REPLACE),
      Keyword("RESTRICT", TK_RESTRICT)][k - 105] else
    if k < 111 then [Keyword("RIGHT", TK_JOIN_KW), Keyword("ROLLBACK", TK_ROLLBACK),
      Keyword("ROW", TK_ROW)][k - 108] else
    if k < 114 then [Keyword("ROWS", TK_ROWS), Keyword("SAVEPOINT", TK_SAVEPOINT),
      Keyword("SELECT", TK_SELECT)][k - 111] else
    if k < 117 then [Keyword("SET", TK_SET), Keyword("TABLE", TK_TABLE), Keyword("TEMP", TK_TEMP)][k - 114] else
    if k < 120 then [Keyword("TEMPORARY", TK_TEMP), Keyword("THEN", TK_THEN), Keyword("TO", TK_TO)][k - 117] else
    if k < 123 then [Keyword("TRANSACTION", TK_TRANSACTION), Keyword("TRIGGER", TK_TRIGGER),
      Keyword("UNBOUNDED", TK_UNBOUNDED)][k - 120] else
    if k < 126 then [Keyword("UNION", TK_UNION), Keyword("UNIQUE", TK_UNIQUE),
      Keyword("UPDATE", TK_UPDATE)][k - 123] else
    if k < 129 then [Keyword("USING", TK_USING), Keyword("VACUUM", TK_VACUUM),
      Keyword("VALUES", TK_VALUES)][k - 126] else
    if k < 132 then [Keyword("VIEW", TK_VIEW), Keyword("VIRTUAL", TK_VIRTUAL), Keyword("WHEN", TK_WHEN)][k - 129] else
    if k < 135 then [Keyword("WHERE", TK_WHERE), Keyword("WINDOW", TK_WINDOW), Keyword("WITH", TK_WITH)][k - 132] else
    [Keyword("WITHOUT", TK_WITHOUT)][k - 135]
  }

  /** The list's `k`-th keyword is the tables' `i`-th, with the same symbol. */
  ghost predicate Agree(k: nat, i: nat)
    requires k < KEYWORDS && i < KEYWORDS
  {
    Listed(k) == Keyword(Word(i), aKWCode(i))
  }

  // The ground facts, in the order of the list and then of the tables.

  lemma Listed0()
    ensures Agree(0, 79) && Agree(1, 27) && Agree(2, 15) && Agree(3, 90) && Agree(4, 134) && Agree(5, 30)
  {
  }

  lemma Listed1()
    ensures Agree(6, 77) && Agree(7, 92) && Agree(8, 17) && Agree(9, 64) && Agree(10, 52) && Agree(11, 94)
  {
  }

  lemma Listed2()
    ensures Agree(12, 8) && Agree(13, 56) && Agree(14, 59) && Agree(15, 62) && Agree(16, 63) && Agree(17, 66)
  {
  }

  lemma Listed3()
    ensures Agree(18, 97) && Agree(19, 6) && Agree(20, 67) && Agree(21, 98) && Agree(22, 99) && Agree(23, 100)
  {
  }

  lemma Listed4()
    ensures Agree(24, 38) && Agree(25, 68) && Agree(26, 101) && Agree(27, 104) && Agree(28, 69)
    ensures Agree(29, 103)
  {
  }

  lemma Listed5()
    ensures Agree(30, 102) && Agree(31, 16) && Agree(32, 93) && Agree(33, 23) && Agree(34, 106) && Agree(35, 65)
  {
  }

  lemma Listed6()
    ensures Agree(36, 3) && Agree(37, 70) && Agree(38, 107) && Agree(39, 132) && Agree(40, 109) && Agree(41, 5)
  {
  }

  lemma Listed7()
    ensures Agree(42, 24) && Agree(43, 22) && Agree(44, 4) && Agree(45, 25) && Agree(46, 32) && Agree(47, 33)
  {
  }

  lemma Listed8()
    ensures Agree(48, 13) && Agree(49, 111) && Agree(50, 112) && Agree(51, 114) && Agree(52, 10) && Agree(53, 9)
  {
  }

  lemma Listed9()
    ensures Agree(54, 115) && Agree(55, 116) && Agree(56, 61) && Agree(57, 54) && Agree(58, 53)
    ensures Agree(59, 117)
  {
  }

  lemma Listed10()
    ensures Agree(60, 11) && Agree(61, 71) && Agree(62, 96) && Agree(63, 2) && Agree(64, 1) && Agree(65, 133)
  {
  }

  lemma Listed11()
    ensures Agree(66, 57) && Agree(67, 73) && Agree(68, 14) && Agree(69, 35) && Agree(70, 39) && Agree(71, 108)
  {
  }

  lemma Listed12()
    ensures Agree(72, 118) && Agree(73, 72) && Agree(74, 7) && Agree(75, 20) && Agree(76, 74) && Agree(77, 82)
  {
  }

  lemma Listed13()
    ensures Agree(78, 75) && Agree(79, 29) && Agree(80, 86) && Agree(81, 85) && Agree(82, 60) && Agree(83, 84)
  {
  }

  lemma Listed14()
    ensures Agree(84, 87) && Agree(85, 41) && Agree(86, 40) && Agree(87, 28) && Agree(88, 45) && Agree(89, 119)
  {
  }

  lemma Listed15()
    ensures Agree(90, 50) && Agree(91, 121) && Agree(92, 105) && Agree(93, 76) && Agree(94, 78)
    ensures Agree(95, 110)
  {
  }

  lemma Listed16()
    ensures Agree(96, 135) && Agree(97, 47) && Agree(98, 31) && Agree(99, 58) && Agree(100, 89)
    ensures Agree(101, 37)
  {
  }

  lemma Listed17()
    ensures Agree(102, 12) && Agree(103, 0) && Agree(104, 51) && Agree(105, 91) && Agree(106, 113)
    ensures Agree(107, 120)
  {
  }

  lemma Listed18()
    ensures Agree(108, 122) && Agree(109, 123) && Agree(110, 125) && Agree(111, 124) && Agree(112, 34)
    ensures Agree(113, 18)
  {
  }

  lemma Listed19()
    ensures Agree(114, 42) && Agree(115, 19) && Agree(116, 44) && Agree(117, 43) && Agree(118, 21)
    ensures Agree(119, 95)
  {
  }

  lemma Listed20()
    ensures Agree(120, 26) && Agree(121, 36) && Agree(122, 126) && Agree(123, 127) && Agree(124, 46)
    ensures Agree(125, 55)
  {
  }

  lemma Listed21()
    ensures Agree(126, 128) && Agree(127, 129) && Agree(128, 80) && Agree(129, 130) && Agree(130, 81)
    ensures Agree(131, 83)
  {
  }

  lemma Listed22()
    ensures Agree(132, 88) && Agree(133, 131) && Agree(134, 49) && Agree(135, 48)
  {
  }

  lemma Tables0()
    ensures Agree(103, 0) && Agree(64, 1) && Agree(63, 2) && Agree(36, 3) && Agree(44, 4) && Agree(41, 5)
    ensures Agree(19, 6) && Agree(74, 7)
  {
    hide Agree;
    Listed3(); Listed6(); Listed7(); Listed10(); Listed12(); Listed17();
  }

  lemma Tables1()
    ensures Agree(12, 8) && Agree(53, 9) && Agree(52, 10) && Agree(60, 11) && Agree(102, 12) && Agree(48, 13)
    ensures Agree(68, 14) && Agree(2, 15)
  {
    hide Agree;
    Listed0(); Listed2(); Listed8(); Listed10(); Listed11(); Listed17();
  }

  lemma Tables2()
    ensures Agree(31, 16) && Agree(8, 17) && Agree(113, 18) && Agree(115, 19) && Agree(75, 20) && Agree(118, 21)
    ensures Agree(43, 22) && Agree(33, 23)
  {
    hide Agree;
    Listed1(); Listed5(); Listed7(); Listed12(); Listed18(); Listed19();
  }

  lemma Tables3()
    ensures Agree(42, 24) && Agree(45, 25) && Agree(120, 26) && Agree(1, 27) && Agree(87, 28) && Agree(79, 29)
    ensures Agree(5, 30) && Agree(98, 31)
  {
    hide Agree;
    Listed0(); Listed7(); Listed13(); Listed14(); Listed16(); Listed20();
  }

  lemma Tables4()
    ensures Agree(46, 32) && Agree(47, 33) && Agree(112, 34) && Agree(69, 35) && Agree(121, 36)
    ensures Agree(101, 37) && Agree(24, 38) && Agree(70, 39)
  {
    hide Agree;
    Listed4(); Listed7(); Listed11(); Listed16(); Listed18(); Listed20();
  }

  lemma Tables5()
    ensures Agree(86, 40) && Agree(85, 41) && Agree(114, 42) && Agree(117, 43) && Agree(116, 44)
    ensures Agree(88, 45) && Agree(124, 46) && Agree(97, 47)
  {
    hide Agree;
    Listed14(); Listed16(); Listed19(); Listed20();
  }

  lemma Tables6()
    ensures Agree(135, 48) && Agree(134, 49) && Agree(90, 50) && Agree(104, 51) && Agree(10, 52)
    ensures Agree(58, 53) && Agree(57, 54) && Agree(125, 55)
  {
    hide Agree;
    Listed1(); Listed9(); Listed15(); Listed17(); Listed20(); Listed22();
  }

  lemma Tables7()
    ensures Agree(13, 56) && Agree(66, 57) && Agree(99, 58) && Agree(14, 59) && Agree(82, 60) && Agree(56, 61)
    ensures Agree(15, 62) && Agree(16, 63)
  {
    hide Agree;
    Listed2(); Listed9(); Listed11(); Listed13(); Listed16();
  }

  lemma Tables8()
    ensures Agree(9, 64) && Agree(35, 65) && Agree(17, 66) && Agree(20, 67) && Agree(25, 68) && Agree(28, 69)
    ensures Agree(37, 70) && Agree(61, 71)
  {
    hide Agree;
    Listed1(); Listed2(); Listed3(); Listed4(); Listed5(); Listed6(); Listed10();
  }

  lemma Tables9()
    ensures Agree(73, 72) && Agree(67, 73) && Agree(76, 74) && Agree(78, 75) && Agree(93, 76) && Agree(6, 77)
    ensures Agree(94, 78) && Agree(0, 79)
  {
    hide Agree;
    Listed0(); Listed1(); Listed11(); Listed12(); Listed13(); Listed15();
  }

  lemma Tables10()
    ensures Agree(128, 80) && Agree(130, 81) && Agree(77, 82) && Agree(131, 83) && Agree(83, 84)
    ensures Agree(81, 85) && Agree(80, 86) && Agree(84, 87)
  {
    hide Agree;
    Listed12(); Listed13(); Listed14(); Listed21();
  }

  lemma Tables11()
    ensures Agree(132, 88) && Agree(100, 89) && Agree(3, 90) && Agree(105, 91) && Agree(7, 92) && Agree(32, 93)
    ensures Agree(11, 94) && Agree(119, 95)
  {
    hide Agree;
    Listed0(); Listed1(); Listed5(); Listed16(); Listed17(); Listed19(); Listed22();
  }

  lemma Tables12()
    ensures Agree(62, 96) && Agree(18, 97) && Agree(21, 98) && Agree(22, 99) && Agree(23, 100) && Agree(26, 101)
    ensures Agree(30, 102) && Agree(29, 103)
  {
    hide Agree;
    Listed3(); Listed4(); Listed5(); Listed10();
  }

  lemma Tables13()
    ensures Agree(27, 104) && Agree(92, 105) && Agree(34, 106) && Agree(38, 107) && Agree(71, 108)
    ensures Agree(40, 109) && Agree(95, 110) && Agree(49, 111)
  {
    hide Agree;
    Listed4(); Listed5(); Listed6(); Listed8(); Listed11(); Listed15();
  }

  lemma Tables14()
    ensures Agree(50, 112) && Agree(106, 113) && Agree(51, 114) && Agree(54, 115) && Agree(55, 116)
    ensures Agree(59, 117) && Agree(72, 118) && Agree(89, 119)
  {
    hide Agree;
    Listed8(); Listed9(); Listed12(); Listed14(); Listed17();
  }

  lemma Tables15()
    ensures Agree(107, 120) && Agree(91, 121) && Agree(108, 122) && Agree(109, 123) && Agree(111, 124)
    ensures Agree(110, 125) && Agree(122, 126) && Agree(123, 127)
  {
    hide Agree;
    Listed15(); Listed17(); Listed18(); Listed20();
  }

  lemma Tables16()
    ensures Agree(126, 128) && Agree(127, 129) && Agree(129, 130) && Agree(133, 131) && Agree(39, 132)
    ensures Agree(65, 133) && Agree(4, 134) && Agree(96, 135)
  {
    hide Agree;
    Listed0(); Listed6(); Listed10(); Listed16(); Listed21(); Listed22();
  }

  lemma InTables(k: nat)
    requires k < KEYWORDS
    ensures exists i: nat :: i < KEYWORDS && Agree(k, i)
  {
    hide Agree;
    if k < 6 {
      Listed0();
    } else if k < 12 {
      Listed1();
    } else if k < 18 {
      Listed2();
    } else if k < 24 {
      Listed3();
    } else if k < 30 {
      Listed4();
    } else if k < 36 {
      Listed5();
    } else if k < 42 {
      Listed6();
    } else if k < 48 {
      Listed7();
    } else if k < 54 {
      Listed8();
    } else if k < 60 {
      Listed9();
    } else if k < 66 {
      Listed10();
    } else if k < 72 {
      Listed11();
    } else if k < 78 {
      Listed12();
    } else if k < 84 {
      Listed13();
    } else if k < 90 {
      Listed14();
    } else if k < 96 {
      Listed15();
    } else if k < 102 {
      Listed16();
    } else if k < 108 {
      Listed17();
    } else if k < 114 {
      Listed18();
    } else if k < 120 {
      Listed19();
    } else if k < 126 {
      Listed20();
    } else if k < 132 {
      Listed21();
    } else {
      Listed22();
    }
  }

  lemma InList(i: nat)
    requires i < KEYWORDS
    ensures exists k: nat :: k < KEYWORDS && Agree(k, i)
  {
    hide Agree;
    if i < 8 {
      Tables0();
    } else if i < 16 {
      Tables1();
    } else if i < 24 {
      Tables2();
    } else if i < 32 {
      Tables3();
    } else if i < 40 {
      Tables4();
    } else if i < 48 {
      Tables5();
    } else if i < 56 {
      Tables6();
    } else if i < 64 {
      Tables7();
    } else if i < 72 {
      Tables8();
    } else if i < 80 {
      Tables9();
    } else if i < 88 {
      Tables10();
    } else if i < 96 {
      Tables11();
    } else if i < 104 {
      Tables12();
    } else if i < 112 {
      Tables13();
    } else if i < 120 {
      Tables14();
    } else if i < 128 {
      Tables15();
    } else {
      Tables16();
    }
  }

  // The lookup, by name.

  /** The lookup gives every listed keyword, in any case of its letters, the symbol listed for it. */
  lemma SymbolOfName(z: seq<bv8>, n: int, k: nat, otherwise: int)
    requires n <= |z| < 0x8000_0000 && k < KEYWORDS && Reads(z, n, Listed(k).text)
    ensures Code(z, n, otherwise) == Listed(k).symbol
  {
    hide Listed, Word, aKWCode, Reads;
    InTables(k);
    var i: nat :| i < KEYWORDS && Agree(k, i);
    CodeOfKeyword(z, n, i, otherwise);
  }

  /** The list is complete: a token that no listed keyword reads as gets no keyword's symbol. */
  lemma NoSymbolOtherwise(z: seq<bv8>, n: int, otherwise: int)
    requires n <= |z| && forall k: nat :: k < KEYWORDS ==> !Reads(z, n, Listed(k).text)
    ensures Code(z, n, otherwise) == otherwise
  {
    hide Listed, Word, aKWCode, Reads;
    forall i | 0 <= i < KEYWORDS ensures !Reads(z, n, Word(i)) {
      InList(i);
      var k: nat :| k < KEYWORDS && Agree(k, i);
      assert !Reads(z, n, Listed(k).text);
    }
  }

  /** Each name, spelled in capitals, gets its symbol. */
  lemma SymbolOfCapitals(k: nat)
    requires k < KEYWORDS
    ensures Code(NameBytes(Listed(k).text), |Listed(k).text|, TK_ID) == Listed(k).symbol != TK_ID
  {
    hide Listed, Word, aKWCode;
    InTables(k);
    var i: nat :| i < KEYWORDS && Agree(k, i);
    NamesAreKeywords(i);
  }
}

/**
 The concrete tables checked entry by entry: every keyword is spelled by the packed
 text, lies on the chain of its own bucket, and is the only one there with its text.
 The entries are ground facts; `AllSound` collects them.
 */
module KeywordChecks {
  import opened KeywordTables
  import opened KeywordBytes

  /** The packed text holds `w` at `o`. */
  ghost predicate TextHas(o: nat, w: string) {
    o + |w| <= TEXT_SIZE && forall j :: 0 <= j < |w| ==> zKWText(o + j) == w[j]
  }

  /** Keyword `i` lies on the chain that starts at `h`, counted from 1. */
  predicate OnChain(h: nat, i: nat)
    requires h <= KEYWORDS
    decreases h
  {
    h != 0 && (h - 1 == i || OnChain(aKWNext(h - 1), i))
  }

  /** No keyword on the chain from `h` has the text of keyword `i`. */
  predicate NotOnChain(h: nat, i: nat)
    requires h <= KEYWORDS && i < KEYWORDS
    decreases h
  {
    h == 0 || (Word(h - 1) != Word(i) && NotOnChain(aKWNext(h - 1), i))
  }

  /**
   Keyword `i` is spelled by the text, begins and ends with a letter, is on the chain of
   its own bucket, and no keyword further down that chain has its text.
   */
  ghost predicate Sound(i: nat)
    requires i < KEYWORDS
  {
    var w := Word(i);
    && aKWLen(i) == |w| && TextHas(aKWOffset(i), w)
    && 2 <= |w| <= 17 && 'A' <= w[0] <= 'Z' && 'A' <= w[|w| - 1] <= 'Z'
    && OnChain(aKWHash(Bucket(Byte(w[0]), Byte(w[|w| - 1]), |w|)), i)
    && NotOnChain(aKWNext(i), i)
  }

  // From ground facts about single entries to `Sound`.

  ghost predicate WordIs(i: nat, w: string, offset: nat)
    requires i < KEYWORDS
  {
    Word(i) == w && aKWLen(i) == |w| && aKWOffset(i) == offset
  }

  ghost predicate HashIs(first: char, last: char, n: nat, b: nat) {
    n <= 17 && Bucket(Byte(first), Byte(last), n) == b
  }

  lemma Head(b: nat, i: nat)
    requires b < BUCKETS && aKWHash(b) == i + 1
    ensures OnChain(aKWHash(b), i)
  {
    hide aKWHash, aKWNext;
  }

  lemma {:induction false} Link(h: nat, p: nat, i: nat)
    requires h <= KEYWORDS && p < KEYWORDS && OnChain(h, p) && aKWNext(p) == i + 1
    ensures OnChain(h, i)
    decreases h
  {
    hide aKWHash, aKWNext;
    if h - 1 != p {
      Link(aKWNext(h - 1), p, i);
    }
  }

  lemma Entry(i: nat, w: string, offset: nat, first: char, last: char, b: nat)
    requires i < KEYWORDS && WordIs(i, w, offset) && TextHas(offset, w) && 2 <= |w| <= 17
    requires w[0] == first && w[|w| - 1] == last && 'A' <= first <= 'Z' && 'A' <= last <= 'Z'
    requires b < BUCKETS && HashIs(first, last, |w|, b)
    requires OnChain(aKWHash(b), i) && NotOnChain(aKWNext(i), i)
    ensures Sound(i)
  {
    hide Word, aKWLen, aKWOffset, aKWHash, aKWNext, OnChain, NotOnChain, TextHas, Byte, Bucket;
  }

  lemma Alone(i: nat, p: nat)
    requires i < KEYWORDS && p < KEYWORDS && aKWNext(p) == 0
    ensures NotOnChain(aKWNext(p), i)
  {
    hide aKWNext, Word;
  }

  lemma Apart(i: nat, p: nat, q: nat)
    requires i < KEYWORDS && p < KEYWORDS && q < KEYWORDS && aKWNext(p) == q + 1
    requires Word(q) != Word(i) && NotOnChain(aKWNext(q), i)
    ensures NotOnChain(aKWNext(p), i)
  {
    hide aKWNext, Word;
  }

  // The ground facts.

  lemma Text0()
    ensures TextHas(0, "REINDEX") && TextHas(2, "INDEXED") && TextHas(2, "INDEX") && TextHas(8, "DESC")
  {
  }

  lemma Text1()
    ensures TextHas(9, "ESCAPE") && TextHas(14, "EACH") && TextHas(16, "CHECK") && TextHas(20, "KEY")
    ensures TextHas(23, "BEFORE")
  {
  }

  lemma Text2()
    ensures TextHas(25, "FOREIGN") && TextHas(25, "FOR") && TextHas(29, "IGNORE") && TextHas(33, "REGEXP")
  {
  }

  lemma Text3()
    ensures TextHas(36, "EXPLAIN") && TextHas(41, "INSTEAD") && TextHas(46, "ADD")
  {
  }

  lemma Text4()
    ensures TextHas(48, "DATABASE") && TextHas(53, "AS") && TextHas(54, "SELECT") && TextHas(59, "TABLE")
  {
  }

  lemma Text5()
    ensures TextHas(62, "LEFT") && TextHas(65, "THEN") && TextHas(67, "END") && TextHas(69, "DEFERRABLE")
  {
  }

  lemma Text6()
    ensures TextHas(78, "ELSE") && TextHas(81, "EXCEPT") && TextHas(86, "TRANSACTION")
  {
  }

  lemma Text7()
    ensures TextHas(91, "ACTION") && TextHas(95, "ON") && TextHas(96, "NATURAL") && TextHas(101, "ALTER")
  {
  }

  lemma Text8()
    ensures TextHas(105, "RAISE") && TextHas(109, "EXCLUSIVE") && TextHas(117, "EXISTS")
  {
  }

  lemma Text9()
    ensures TextHas(122, "SAVEPOINT") && TextHas(128, "INTERSECT")
  {
  }

  lemma Text10()
    ensures TextHas(136, "TRIGGER") && TextHas(142, "REFERENCES")
  {
  }

  lemma Text11()
    ensures TextHas(152, "CONSTRAINT") && TextHas(159, "INTO") && TextHas(162, "OFFSET") && TextHas(162, "OF")
  {
  }

  lemma Text12()
    ensures TextHas(165, "SET") && TextHas(167, "TEMPORARY") && TextHas(167, "TEMP") && TextHas(171, "OR")
    ensures TextHas(176, "UNIQUE")
  {
  }

  lemma Text13()
    ensures TextHas(179, "QUERY") && TextHas(184, "WITHOUT") && TextHas(184, "WITH") && TextHas(188, "OUTER")
  {
  }

  lemma Text14()
    ensures TextHas(192, "RELEASE") && TextHas(199, "ATTACH") && TextHas(204, "HAVING") && TextHas(209, "GROUP")
  {
  }

  lemma Text15()
    ensures TextHas(212, "UPDATE") && TextHas(218, "BEGIN") && TextHas(221, "INNER") && TextHas(225, "RANGE")
  {
  }

  lemma Text16()
    ensures TextHas(230, "BETWEEN") && TextHas(236, "NOTHING") && TextHas(242, "GLOB") && TextHas(245, "BY")
  {
  }

  lemma Text17()
    ensures TextHas(247, "CASCADE") && TextHas(248, "ASC") && TextHas(252, "DELETE") && TextHas(258, "CASE")
  {
  }

  lemma Text18()
    ensures TextHas(262, "COLLATE") && TextHas(269, "CREATE")
  {
  }

  lemma Text19()
    ensures TextHas(275, "CURRENT_DATE") && TextHas(287, "DETACH")
  {
  }

  lemma Text20()
    ensures TextHas(293, "IMMEDIATE") && TextHas(302, "JOIN") && TextHas(304, "INSERT") && TextHas(310, "LIKE")
  {
  }

  lemma Text21()
    ensures TextHas(314, "MATCH") && TextHas(319, "PLAN") && TextHas(321, "ANALYZE") && TextHas(328, "PRAGMA")
  {
  }

  lemma Text22()
    ensures TextHas(333, "ABORT") && TextHas(338, "VALUES") && TextHas(344, "VIRTUAL") && TextHas(350, "LIMIT")
  {
  }

  lemma Text23()
    ensures TextHas(355, "WHEN") && TextHas(358, "NOTNULL") && TextHas(358, "NOT") && TextHas(358, "NO")
    ensures TextHas(361, "NULL")
  {
  }

  lemma Text24()
    ensures TextHas(365, "WHERE") && TextHas(368, "RECURSIVE") && TextHas(377, "AFTER")
  {
  }

  lemma Text25()
    ensures TextHas(381, "RENAME") && TextHas(387, "AND") && TextHas(389, "DEFAULT")
  {
  }

  lemma Text26()
    ensures TextHas(396, "AUTOINCREMENT") && TextHas(398, "TO") && TextHas(400, "IN") && TextHas(409, "CAST")
  {
  }

  lemma Text27()
    ensures TextHas(413, "COLUMN") && TextHas(419, "COMMIT") && TextHas(425, "CONFLICT")
  {
  }

  lemma Text28()
    ensures TextHas(433, "CROSS")
  {
  }

  lemma Text29()
    ensures TextHas(438, "CURRENT_TIMESTAMP")
  {
  }

  lemma Text30()
    ensures TextHas(438, "CURRENT_TIME") && TextHas(438, "CURRENT")
  {
  }

  lemma Text31()
    ensures TextHas(454, "PARTITION") && TextHas(463, "DEFERRED")
  {
  }

  lemma Text32()
    ensures TextHas(470, "DISTINCT") && TextHas(471, "IS")
  {
  }

  lemma Text33()
    ensures TextHas(478, "DROP") && TextHas(481, "PRECEDING")
  {
  }

  lemma Text34()
    ensures TextHas(490, "FAIL") && TextHas(494, "FILTER") && TextHas(499, "REPLACE")
  {
  }

  lemma Text35()
    ensures TextHas(506, "FOLLOWING") && TextHas(515, "FROM") && TextHas(519, "FULL") && TextHas(523, "IF")
  {
  }

  lemma Text36()
    ensures TextHas(525, "ISNULL") && TextHas(531, "ORDER") && TextHas(535, "RESTRICT") && TextHas(543, "OVER")
  {
  }

  lemma Text37()
    ensures TextHas(546, "RIGHT") && TextHas(551, "ROLLBACK") && TextHas(559, "ROWS") && TextHas(559, "ROW")
  {
  }

  lemma Text38()
    ensures TextHas(563, "UNBOUNDED") && TextHas(572, "UNION") && TextHas(577, "USING")
  {
  }

  lemma Text39()
    ensures TextHas(582, "VACUUM") && TextHas(588, "VIEW") && TextHas(591, "WINDOW") && TextHas(594, "DO")
  {
  }

  lemma Text40()
    ensures TextHas(597, "INITIALLY") && TextHas(602, "ALL") && TextHas(606, "PRIMARY")
  {
  }

  lemma Words0()
    ensures WordIs(0, "REINDEX", 0) && WordIs(1, "INDEXED", 2) && WordIs(2, "INDEX", 2) && WordIs(3, "DESC", 8)
    ensures WordIs(4, "ESCAPE", 9) && WordIs(5, "EACH", 14) && WordIs(6, "CHECK", 16) && WordIs(7, "KEY", 20)
  {
  }

  lemma Words1()
    ensures WordIs(8, "BEFORE", 23) && WordIs(9, "FOREIGN", 25) && WordIs(10, "FOR", 25)
    ensures WordIs(11, "IGNORE", 29) && WordIs(12, "REGEXP", 33) && WordIs(13, "EXPLAIN", 36)
    ensures WordIs(14, "INSTEAD", 41) && WordIs(15, "ADD", 46)
  {
  }

  lemma Words2()
    ensures WordIs(16, "DATABASE", 48) && WordIs(17, "AS", 53) && WordIs(18, "SELECT", 54)
    ensures WordIs(19, "TABLE", 59) && WordIs(20, "LEFT", 62) && WordIs(21, "THEN", 65) && WordIs(22, "END", 67)
    ensures WordIs(23, "DEFERRABLE", 69)
  {
  }

  lemma Words3()
    ensures WordIs(24, "ELSE", 78) && WordIs(25, "EXCEPT", 81) && WordIs(26, "TRANSACTION", 86)
    ensures WordIs(27, "ACTION", 91) && WordIs(28, "ON", 95) && WordIs(29, "NATURAL", 96)
    ensures WordIs(30, "ALTER", 101) && WordIs(31, "RAISE", 105)
  {
  }

  lemma Words4()
    ensures WordIs(32, "EXCLUSIVE", 109) && WordIs(33, "EXISTS", 117) && WordIs(34, "SAVEPOINT", 122)
    ensures WordIs(35, "INTERSECT", 128) && WordIs(36, "TRIGGER", 136) && WordIs(37, "REFERENCES", 142)
    ensures WordIs(38, "CONSTRAINT", 152) && WordIs(39, "INTO", 159)
  {
  }

  lemma Words5()
    ensures WordIs(40, "OFFSET", 162) && WordIs(41, "OF", 162) && WordIs(42, "SET", 165)
    ensures WordIs(43, "TEMPORARY", 167) && WordIs(44, "TEMP", 167) && WordIs(45, "OR", 171)
    ensures WordIs(46, "UNIQUE", 176) && WordIs(47, "QUERY", 179)
  {
  }

  lemma Words6()
    ensures WordIs(48, "WITHOUT", 184) && WordIs(49, "WITH", 184) && WordIs(50, "OUTER", 188)
    ensures WordIs(51, "RELEASE", 192) && WordIs(52, "ATTACH", 199) && WordIs(53, "HAVING", 204)
    ensures WordIs(54, "GROUP", 209) && WordIs(55, "UPDATE", 212)
  {
  }

  lemma Words7()
    ensures WordIs(56, "BEGIN", 218) && WordIs(57, "INNER", 221) && WordIs(58, "RANGE", 225)
    ensures WordIs(59, "BETWEEN", 230) && WordIs(60, "NOTHING", 236) && WordIs(61, "GLOB", 242)
    ensures WordIs(62, "BY", 245) && WordIs(63, "CASCADE", 247)
  {
  }

  lemma Words8()
    ensures WordIs(64, "ASC", 248) && WordIs(65, "DELETE", 252) && WordIs(66, "CASE", 258)
    ensures WordIs(67, "COLLATE", 262) && WordIs(68, "CREATE", 269) && WordIs(69, "CURRENT_DATE", 275)
    ensures WordIs(70, "DETACH", 287) && WordIs(71, "IMMEDIATE", 293)
  {
  }

  lemma Words9()
    ensures WordIs(72, "JOIN", 302) && WordIs(73, "INSERT", 304) && WordIs(74, "LIKE", 310)
    ensures WordIs(75, "MATCH", 314) && WordIs(76, "PLAN", 319) && WordIs(77, "ANALYZE", 321)
    ensures WordIs(78, "PRAGMA", 328) && WordIs(79, "ABORT", 333)
  {
  }

  lemma Words10()
    ensures WordIs(80, "VALUES", 338) && WordIs(81, "VIRTUAL", 344) && WordIs(82, "LIMIT", 350)
    ensures WordIs(83, "WHEN", 355) && WordIs(84, "NOTNULL", 358) && WordIs(85, "NOT", 358)
    ensures WordIs(86, "NO", 358) && WordIs(87, "NULL", 361)
  {
  }

  lemma Words11()
    ensures WordIs(88, "WHERE", 365) && WordIs(89, "RECURSIVE", 368) && WordIs(90, "AFTER", 377)
    ensures WordIs(91, "RENAME", 381) && WordIs(92, "AND", 387) && WordIs(93, "DEFAULT", 389)
    ensures WordIs(94, "AUTOINCREMENT", 396) && WordIs(95, "TO", 398)
  {
  }

  lemma Words12()
    ensures WordIs(96, "IN", 400) && WordIs(97, "CAST", 409) && WordIs(98, "COLUMN", 413)
    ensures WordIs(99, "COMMIT", 419) && WordIs(100, "CONFLICT", 425) && WordIs(101, "CROSS", 433)
    ensures WordIs(102, "CURRENT_TIMESTAMP", 438) && WordIs(103, "CURRENT_TIME", 438)
  {
  }

  lemma Words13()
    ensures WordIs(104, "CURRENT", 438) && WordIs(105, "PARTITION", 454) && WordIs(106, "DEFERRED", 463)
    ensures WordIs(107, "DISTINCT", 470) && WordIs(108, "IS", 471) && WordIs(109, "DROP", 478)
    ensures WordIs(110, "PRECEDING", 481) && WordIs(111, "FAIL", 490)
  {
  }

  lemma Words14()
    ensures WordIs(112, "FILTER", 494) && WordIs(113, "REPLACE", 499) && WordIs(114, "FOLLOWING", 506)
    ensures WordIs(115, "FROM", 515) && WordIs(116, "FULL", 519) && WordIs(117, "IF", 523)
    ensures WordIs(118, "ISNULL", 525) && WordIs(119, "ORDER", 531)
  {
  }

  lemma Words15()
    ensures WordIs(120, "RESTRICT", 535) && WordIs(121, "OVER", 543) && WordIs(122, "RIGHT", 546)
    ensures WordIs(123, "ROLLBACK", 551) && WordIs(124, "ROWS", 559) && WordIs(125, "ROW", 559)
    ensures WordIs(126, "UNBOUNDED", 563) && WordIs(127, "UNION", 572)
  {
  }

  lemma Words16()
    ensures WordIs(128, "USING", 577) && WordIs(129, "VACUUM", 582) && WordIs(130, "VIEW", 588)
    ensures WordIs(131, "WINDOW", 591) && WordIs(132, "DO", 594) && WordIs(133, "INITIALLY", 597)
    ensures WordIs(134, "ALL", 602) && WordIs(135, "PRIMARY", 606)
  {
  }

  lemma Hashes0()
    ensures HashIs('R', 'X', 7, 40) && HashIs('I', 'D', 7, 16) && HashIs('I', 'X', 5, 74)
  {
  }

  lemma Hashes1()
    ensures HashIs('D', 'C', 4, 62) && HashIs('E', 'E', 6, 62) && HashIs('E', 'H', 4, 41)
  {
  }

  lemma Hashes2()
    ensures HashIs('C', 'K', 5, 73) && HashIs('K', 'Y', 3, 69) && HashIs('B', 'E', 6, 34)
  {
  }

  lemma Hashes3()
    ensures HashIs('F', 'N', 7, 86) && HashIs('F', 'R', 3, 78) && HashIs('I', 'E', 6, 14)
  {
  }

  lemma Hashes4()
    ensures HashIs('R', 'P', 6, 31) && HashIs('E', 'N', 7, 90) && HashIs('I', 'D', 7, 16)
  {
  }

  lemma Hashes5()
    ensures HashIs('A', 'D', 3, 44) && HashIs('D', 'E', 8, 56) && HashIs('A', 'S', 2, 96)
  {
  }

  lemma Hashes6()
    ensures HashIs('S', 'T', 6, 23) && HashIs('T', 'E', 5, 123) && HashIs('L', 'T', 4, 105)
  {
  }

  lemma Hashes7()
    ensures HashIs('T', 'N', 4, 31) && HashIs('E', 'D', 3, 60) && HashIs('D', 'E', 10, 54)
  {
  }

  lemma Hashes8()
    ensures HashIs('E', 'E', 4, 64) && HashIs('E', 'T', 6, 79) && HashIs('T', 'N', 11, 18)
  {
  }

  lemma Hashes9()
    ensures HashIs('A', 'N', 6, 73) && HashIs('O', 'N', 2, 117) && HashIs('N', 'L', 7, 124)
  {
  }

  lemma Hashes10()
    ensures HashIs('A', 'R', 5, 88) && HashIs('R', 'E', 5, 99) && HashIs('E', 'E', 9, 51)
  {
  }

  lemma Hashes11()
    ensures HashIs('E', 'S', 6, 76) && HashIs('S', 'T', 9, 26) && HashIs('I', 'T', 9, 114)
  {
  }

  lemma Hashes12()
    ensures HashIs('T', 'R', 7, 2) && HashIs('R', 'S', 10, 28) && HashIs('C', 'T', 10, 91)
  {
  }

  lemma Hashes13()
    ensures HashIs('I', 'O', 4, 110) && HashIs('O', 'T', 6, 103) && HashIs('O', 'F', 2, 13)
  {
  }

  lemma Hashes14()
    ensures HashIs('S', 'T', 3, 20) && HashIs('T', 'Y', 9, 51) && HashIs('T', 'P', 4, 5)
  {
  }

  lemma Hashes15()
    ensures HashIs('O', 'R', 2, 105)
  {
  }

  lemma Hashes16()
    ensures HashIs('U', 'E', 6, 126) && HashIs('Q', 'Y', 5, 43)
  {
  }

  lemma Hashes17()
    ensures HashIs('W', 'T', 7, 8) && HashIs('W', 'H', 4, 97) && HashIs('O', 'R', 5, 112)
  {
  }

  lemma Hashes18()
    ensures HashIs('R', 'E', 7, 97) && HashIs('A', 'H', 6, 59) && HashIs('H', 'G', 6, 20)
  {
  }

  lemma Hashes19()
    ensures HashIs('G', 'P', 5, 74) && HashIs('U', 'E', 6, 126) && HashIs('B', 'N', 5, 72)
  {
  }

  lemma Hashes20()
    ensures HashIs('I', 'R', 5, 120) && HashIs('R', 'E', 5, 99) && HashIs('B', 'N', 7, 70)
  {
  }

  lemma Hashes21()
    ensures HashIs('N', 'G', 7, 11) && HashIs('G', 'B', 4, 63) && HashIs('B', 'Y', 2, 98)
  {
  }

  lemma Hashes22()
    ensures HashIs('C', 'E', 7, 37) && HashIs('A', 'C', 3, 47) && HashIs('D', 'E', 6, 58)
  {
  }

  lemma Hashes23()
    ensures HashIs('C', 'E', 4, 40) && HashIs('C', 'E', 7, 37) && HashIs('C', 'E', 6, 38)
  {
  }

  lemma Hashes24()
    ensures HashIs('C', 'E', 12, 48) && HashIs('D', 'H', 6, 47) && HashIs('I', 'E', 9, 3)
  {
  }

  lemma Hashes25()
    ensures HashIs('J', 'N', 4, 103) && HashIs('I', 'T', 6, 0) && HashIs('L', 'E', 4, 28)
  {
  }

  lemma Hashes26()
    ensures HashIs('M', 'H', 5, 10) && HashIs('P', 'N', 4, 15) && HashIs('A', 'E', 7, 45)
  {
  }

  lemma Hashes27()
    ensures HashIs('P', 'A', 6, 102) && HashIs('A', 'T', 5, 94) && HashIs('V', 'S', 6, 8)
  {
  }

  lemma Hashes28()
    ensures HashIs('V', 'L', 7, 28) && HashIs('L', 'T', 5, 106) && HashIs('W', 'N', 4, 19)
  {
  }

  lemma Hashes29()
    ensures HashIs('N', 'L', 7, 124) && HashIs('N', 'T', 3, 104) && HashIs('N', 'O', 2, 120)
  {
  }

  lemma Hashes30()
    ensures HashIs('N', 'L', 4, 121) && HashIs('W', 'E', 5, 119) && HashIs('R', 'E', 9, 111)
  {
  }

  lemma Hashes31()
    ensures HashIs('A', 'R', 5, 88) && HashIs('R', 'E', 6, 98) && HashIs('A', 'D', 3, 44)
  {
  }

  lemma Hashes32()
    ensures HashIs('D', 'T', 7, 76) && HashIs('A', 'T', 13, 86) && HashIs('T', 'O', 2, 32)
  {
  }

  lemma Hashes33()
    ensures HashIs('I', 'N', 2, 109) && HashIs('C', 'T', 4, 85) && HashIs('C', 'N', 6, 65)
  {
  }

  lemma Hashes34()
    ensures HashIs('C', 'T', 6, 87) && HashIs('C', 'T', 8, 89) && HashIs('C', 'S', 5, 81)
  {
  }

  lemma Hashes35()
    ensures HashIs('C', 'P', 17, 78) && HashIs('C', 'E', 12, 48) && HashIs('C', 'T', 7, 88)
  {
  }

  lemma Hashes36()
    ensures HashIs('P', 'N', 9, 4) && HashIs('D', 'D', 8, 53) && HashIs('D', 'T', 8, 69)
  {
  }

  lemma Hashes37()
    ensures HashIs('I', 'S', 2, 1) && HashIs('D', 'P', 4, 69) && HashIs('P', 'G', 9, 125)
  {
  }

  lemma Hashes38()
    ensures HashIs('F', 'L', 4, 89) && HashIs('F', 'R', 6, 73) && HashIs('R', 'E', 7, 97)
  {
  }

  lemma Hashes39()
    ensures HashIs('F', 'G', 9, 37) && HashIs('F', 'M', 4, 92) && HashIs('F', 'L', 4, 89)
  {
  }

  lemma Hashes40()
    ensures HashIs('I', 'F', 2, 21) && HashIs('I', 'L', 6, 103) && HashIs('O', 'R', 5, 112)
  {
  }

  lemma Hashes41()
    ensures HashIs('R', 'T', 8, 29) && HashIs('O', 'R', 4, 111) && HashIs('R', 'T', 5, 18)
  {
  }

  lemma Hashes42()
    ensures HashIs('R', 'K', 8, 2) && HashIs('R', 'S', 4, 22) && HashIs('R', 'W', 3, 47)
  {
  }

  lemma Hashes43()
    ensures HashIs('U', 'D', 9, 114) && HashIs('U', 'N', 5, 28) && HashIs('U', 'G', 5, 101)
  {
  }

  lemma Hashes44()
    ensures HashIs('V', 'M', 6, 26) && HashIs('V', 'W', 4, 58) && HashIs('W', 'W', 6, 64)
  {
  }

  lemma Hashes45()
    ensures HashIs('D', 'O', 2, 96) && HashIs('I', 'Y', 9, 71) && HashIs('A', 'L', 3, 68)
  {
  }

  lemma Hashes46()
    ensures HashIs('P', 'Y', 7, 45)
  {
  }

  lemma Heads0()
    ensures aKWHash(0) == 74 && aKWHash(1) == 109 && aKWHash(2) == 124 && aKWHash(3) == 72 && aKWHash(4) == 106
    ensures aKWHash(5) == 45 && aKWHash(8) == 81 && aKWHash(10) == 76 && aKWHash(11) == 61 && aKWHash(13) == 42
    ensures aKWHash(14) == 12 && aKWHash(15) == 77 && aKWHash(16) == 15 && aKWHash(18) == 123
    ensures aKWHash(19) == 84 && aKWHash(20) == 54 && aKWHash(21) == 118 && aKWHash(22) == 125
  {
  }

  lemma Heads1()
    ensures aKWHash(23) == 19 && aKWHash(26) == 130 && aKWHash(28) == 128 && aKWHash(29) == 121
    ensures aKWHash(31) == 22 && aKWHash(32) == 96 && aKWHash(34) == 9 && aKWHash(37) == 115
    ensures aKWHash(38) == 69 && aKWHash(40) == 67 && aKWHash(41) == 6 && aKWHash(43) == 48 && aKWHash(44) == 93
    ensures aKWHash(45) == 136 && aKWHash(47) == 126 && aKWHash(48) == 104 && aKWHash(51) == 44
    ensures aKWHash(53) == 107
  {
  }

  lemma Heads2()
    ensures aKWHash(54) == 24 && aKWHash(56) == 17 && aKWHash(58) == 131 && aKWHash(59) == 53
    ensures aKWHash(60) == 23 && aKWHash(62) == 5 && aKWHash(63) == 62 && aKWHash(64) == 132
    ensures aKWHash(65) == 99 && aKWHash(68) == 135 && aKWHash(69) == 110 && aKWHash(70) == 60
    ensures aKWHash(71) == 134 && aKWHash(72) == 57 && aKWHash(73) == 113 && aKWHash(74) == 55
    ensures aKWHash(76) == 94 && aKWHash(78) == 103
  {
  }

  lemma Heads3()
    ensures aKWHash(79) == 26 && aKWHash(81) == 102 && aKWHash(85) == 98 && aKWHash(86) == 95
    ensures aKWHash(87) == 100 && aKWHash(88) == 105 && aKWHash(89) == 117 && aKWHash(90) == 14
    ensures aKWHash(91) == 39 && aKWHash(92) == 116 && aKWHash(94) == 80 && aKWHash(96) == 133
    ensures aKWHash(97) == 114 && aKWHash(98) == 92 && aKWHash(99) == 59 && aKWHash(101) == 129
    ensures aKWHash(102) == 79 && aKWHash(103) == 119
  {
  }

  lemma Heads4()
    ensures aKWHash(104) == 86 && aKWHash(105) == 46 && aKWHash(106) == 83 && aKWHash(109) == 97
    ensures aKWHash(110) == 40 && aKWHash(111) == 122 && aKWHash(112) == 120 && aKWHash(114) == 127
    ensures aKWHash(117) == 29 && aKWHash(119) == 89 && aKWHash(120) == 87 && aKWHash(121) == 88
    ensures aKWHash(123) == 20 && aKWHash(124) == 85 && aKWHash(125) == 111 && aKWHash(126) == 56
  {
  }

  lemma Nexts0()
    ensures aKWNext(0) == 0 && aKWNext(1) == 0 && aKWNext(2) == 0 && aKWNext(3) == 0 && aKWNext(4) == 4
    ensures aKWNext(5) == 0 && aKWNext(6) == 0 && aKWNext(7) == 0 && aKWNext(8) == 0 && aKWNext(9) == 0
    ensures aKWNext(10) == 0 && aKWNext(11) == 0 && aKWNext(12) == 0 && aKWNext(13) == 0 && aKWNext(14) == 2
    ensures aKWNext(15) == 0 && aKWNext(16) == 0 && aKWNext(17) == 0 && aKWNext(18) == 0 && aKWNext(19) == 0
    ensures aKWNext(20) == 0 && aKWNext(21) == 13 && aKWNext(22) == 0 && aKWNext(23) == 0 && aKWNext(24) == 0
    ensures aKWNext(25) == 0 && aKWNext(26) == 0 && aKWNext(27) == 7 && aKWNext(28) == 0 && aKWNext(29) == 0
    ensures aKWNext(30) == 0 && aKWNext(31) == 0 && aKWNext(32) == 0 && aKWNext(33) == 0
  {
  }

  lemma Nexts1()
    ensures aKWNext(34) == 0 && aKWNext(35) == 0 && aKWNext(36) == 0 && aKWNext(37) == 0 && aKWNext(38) == 0
    ensures aKWNext(39) == 0 && aKWNext(40) == 0 && aKWNext(41) == 0 && aKWNext(42) == 0 && aKWNext(43) == 33
    ensures aKWNext(44) == 0 && aKWNext(45) == 21 && aKWNext(46) == 0 && aKWNext(47) == 0 && aKWNext(48) == 0
    ensures aKWNext(49) == 0 && aKWNext(50) == 0 && aKWNext(51) == 50 && aKWNext(52) == 0 && aKWNext(53) == 43
    ensures aKWNext(54) == 3 && aKWNext(55) == 47 && aKWNext(56) == 0 && aKWNext(57) == 0 && aKWNext(58) == 32
    ensures aKWNext(59) == 0 && aKWNext(60) == 0 && aKWNext(61) == 0 && aKWNext(62) == 0 && aKWNext(63) == 0
    ensures aKWNext(64) == 0 && aKWNext(65) == 0 && aKWNext(66) == 1 && aKWNext(67) == 64
  {
  }

  lemma Nexts2()
    ensures aKWNext(68) == 0 && aKWNext(69) == 0 && aKWNext(70) == 65 && aKWNext(71) == 0 && aKWNext(72) == 41
    ensures aKWNext(73) == 0 && aKWNext(74) == 38 && aKWNext(75) == 0 && aKWNext(76) == 0 && aKWNext(77) == 0
    ensures aKWNext(78) == 0 && aKWNext(79) == 0 && aKWNext(80) == 49 && aKWNext(81) == 75 && aKWNext(82) == 0
    ensures aKWNext(83) == 0 && aKWNext(84) == 30 && aKWNext(85) == 0 && aKWNext(86) == 58 && aKWNext(87) == 0
    ensures aKWNext(88) == 0 && aKWNext(89) == 0 && aKWNext(90) == 31 && aKWNext(91) == 63 && aKWNext(92) == 16
    ensures aKWNext(93) == 34 && aKWNext(94) == 10 && aKWNext(95) == 0 && aKWNext(96) == 0 && aKWNext(97) == 0
    ensures aKWNext(98) == 0 && aKWNext(99) == 0 && aKWNext(100) == 0 && aKWNext(101) == 0
  {
  }

  lemma Nexts3()
    ensures aKWNext(102) == 11 && aKWNext(103) == 70 && aKWNext(104) == 91 && aKWNext(105) == 0
    ensures aKWNext(106) == 0 && aKWNext(107) == 8 && aKWNext(108) == 0 && aKWNext(109) == 108
    ensures aKWNext(110) == 0 && aKWNext(111) == 101 && aKWNext(112) == 28 && aKWNext(113) == 52
    ensures aKWNext(114) == 68 && aKWNext(115) == 0 && aKWNext(116) == 112 && aKWNext(117) == 0
    ensures aKWNext(118) == 73 && aKWNext(119) == 51 && aKWNext(120) == 0 && aKWNext(121) == 90
    ensures aKWNext(122) == 27 && aKWNext(123) == 37 && aKWNext(124) == 0 && aKWNext(125) == 71
    ensures aKWNext(126) == 36 && aKWNext(127) == 82 && aKWNext(128) == 0 && aKWNext(129) == 35
    ensures aKWNext(130) == 66 && aKWNext(131) == 25 && aKWNext(132) == 18 && aKWNext(133) == 0
    ensures aKWNext(134) == 0 && aKWNext(135) == 78
  {
  }

  lemma Differ0()
    ensures Word(4) != Word(3) && Word(14) != Word(1) && Word(21) != Word(12) && Word(27) != Word(6)
    ensures Word(43) != Word(32) && Word(45) != Word(20)
  {
  }

  lemma Differ1()
    ensures Word(51) != Word(49) && Word(53) != Word(42) && Word(54) != Word(2) && Word(55) != Word(46)
    ensures Word(58) != Word(31) && Word(66) != Word(0)
  {
  }

  lemma Differ2()
    ensures Word(67) != Word(63) && Word(70) != Word(64) && Word(72) != Word(40) && Word(74) != Word(37)
    ensures Word(80) != Word(48) && Word(81) != Word(74)
  {
  }

  lemma Differ3()
    ensures Word(81) != Word(37) && Word(84) != Word(29) && Word(86) != Word(57) && Word(90) != Word(30)
    ensures Word(91) != Word(62) && Word(92) != Word(15)
  {
  }

  lemma Differ4()
    ensures Word(93) != Word(33) && Word(94) != Word(9) && Word(102) != Word(10) && Word(103) != Word(69)
    ensures Word(104) != Word(90) && Word(104) != Word(30)
  {
  }

  lemma Differ5()
    ensures Word(107) != Word(7) && Word(109) != Word(107) && Word(109) != Word(7) && Word(111) != Word(100)
    ensures Word(112) != Word(27) && Word(112) != Word(6)
  {
  }

  lemma Differ6()
    ensures Word(113) != Word(51) && Word(113) != Word(49) && Word(114) != Word(67) && Word(114) != Word(63)
    ensures Word(116) != Word(111) && Word(116) != Word(100)
  {
  }

  lemma Differ7()
    ensures Word(118) != Word(72) && Word(118) != Word(40) && Word(119) != Word(50) && Word(121) != Word(89)
    ensures Word(122) != Word(26) && Word(123) != Word(36)
  {
  }

  lemma Differ8()
    ensures Word(125) != Word(70) && Word(125) != Word(64) && Word(126) != Word(35) && Word(127) != Word(81)
    ensures Word(127) != Word(74) && Word(127) != Word(37)
  {
  }

  lemma Differ9()
    ensures Word(129) != Word(34) && Word(130) != Word(65) && Word(131) != Word(24) && Word(132) != Word(17)
    ensures Word(135) != Word(77)
  {
  }

  // The facts collected, eight keywords at a time.

  lemma Sound0()
    ensures Sound(0) && Sound(1) && Sound(2) && Sound(3) && Sound(4) && Sound(5) && Sound(6) && Sound(7)
  {
    hide aKWLen, aKWOffset, aKWHash, aKWNext, Word, WordIs, HashIs, TextHas, OnChain, NotOnChain, Sound;
    Words0(); Text0(); Text1(); Hashes0(); Hashes1(); Hashes2(); Heads0(); Heads1(); Heads2(); Nexts0(); Nexts1();
    Nexts3(); Differ0();
    Head(40, 66); Link(aKWHash(40), 66, 0); Alone(0, 0); Entry(0, "REINDEX", 0, 'R', 'X', 40);
    Head(16, 14); Link(aKWHash(16), 14, 1); Alone(1, 1); Entry(1, "INDEXED", 2, 'I', 'D', 16);
    Head(74, 54); Link(aKWHash(74), 54, 2); Alone(2, 2); Entry(2, "INDEX", 2, 'I', 'X', 74);
    Head(62, 4); Link(aKWHash(62), 4, 3); Alone(3, 3); Entry(3, "DESC", 8, 'D', 'C', 62);
    Head(62, 4); Alone(4, 3); Apart(4, 4, 3); Entry(4, "ESCAPE", 9, 'E', 'E', 62);
    Head(41, 5); Alone(5, 5); Entry(5, "EACH", 14, 'E', 'H', 41);
    Head(73, 112); Link(aKWHash(73), 112, 27); Link(aKWHash(73), 27, 6); Alone(6, 6);
    Entry(6, "CHECK", 16, 'C', 'K', 73);
    Head(69, 109); Link(aKWHash(69), 109, 107); Link(aKWHash(69), 107, 7); Alone(7, 7);
    Entry(7, "KEY", 20, 'K', 'Y', 69);
  }

  lemma Sound1()
    ensures Sound(8) && Sound(9) && Sound(10) && Sound(11) && Sound(12) && Sound(13) && Sound(14) && Sound(15)
  {
    hide aKWLen, aKWOffset, aKWHash, aKWNext, Word, WordIs, HashIs, TextHas, OnChain, NotOnChain, Sound;
    Words1(); Text1(); Text2(); Text3(); Hashes2(); Hashes3(); Hashes4(); Hashes5(); Heads0(); Heads1(); Heads2();
    Heads3(); Nexts0(); Nexts2(); Nexts3(); Differ0();
    Head(34, 8); Alone(8, 8); Entry(8, "BEFORE", 23, 'B', 'E', 34);
    Head(86, 94); Link(aKWHash(86), 94, 9); Alone(9, 9); Entry(9, "FOREIGN", 25, 'F', 'N', 86);
    Head(78, 102); Link(aKWHash(78), 102, 10); Alone(10, 10); Entry(10, "FOR", 25, 'F', 'R', 78);
    Head(14, 11); Alone(11, 11); Entry(11, "IGNORE", 29, 'I', 'E', 14);
    Head(31, 21); Link(aKWHash(31), 21, 12); Alone(12, 12); Entry(12, "REGEXP", 33, 'R', 'P', 31);
    Head(90, 13); Alone(13, 13); Entry(13, "EXPLAIN", 36, 'E', 'N', 90);
    Head(16, 14); Alone(14, 1); Apart(14, 14, 1); Entry(14, "INSTEAD", 41, 'I', 'D', 16);
    Head(44, 92); Link(aKWHash(44), 92, 15); Alone(15, 15); Entry(15, "ADD", 46, 'A', 'D', 44);
  }

  lemma Sound2()
    ensures Sound(16) && Sound(17) && Sound(18) && Sound(19) && Sound(20) && Sound(21) && Sound(22) && Sound(23)
  {
    hide aKWLen, aKWOffset, aKWHash, aKWNext, Word, WordIs, HashIs, TextHas, OnChain, NotOnChain, Sound;
    Words2(); Text4(); Text5(); Hashes5(); Hashes6(); Hashes7(); Heads1(); Heads2(); Heads3(); Heads4(); Nexts0();
    Nexts1(); Nexts3(); Differ0();
    Head(56, 16); Alone(16, 16); Entry(16, "DATABASE", 48, 'D', 'E', 56);
    Head(96, 132); Link(aKWHash(96), 132, 17); Alone(17, 17); Entry(17, "AS", 53, 'A', 'S', 96);
    Head(23, 18); Alone(18, 18); Entry(18, "SELECT", 54, 'S', 'T', 23);
    Head(123, 19); Alone(19, 19); Entry(19, "TABLE", 59, 'T', 'E', 123);
    Head(105, 45); Link(aKWHash(105), 45, 20); Alone(20, 20); Entry(20, "LEFT", 62, 'L', 'T', 105);
    Head(31, 21); Alone(21, 12); Apart(21, 21, 12); Entry(21, "THEN", 65, 'T', 'N', 31);
    Head(60, 22); Alone(22, 22); Entry(22, "END", 67, 'E', 'D', 60);
    Head(54, 23); Alone(23, 23); Entry(23, "DEFERRABLE", 69, 'D', 'E', 54);
  }

  lemma Sound3()
    ensures Sound(24) && Sound(25) && Sound(26) && Sound(27) && Sound(28) && Sound(29) && Sound(30) && Sound(31)
  {
    hide aKWLen, aKWOffset, aKWHash, aKWNext, Word, WordIs, HashIs, TextHas, OnChain, NotOnChain, Sound;
    Words3(); Text6(); Text7(); Text8(); Hashes8(); Hashes9(); Hashes10(); Heads0(); Heads2(); Heads3(); Heads4();
    Nexts0(); Nexts1(); Nexts2(); Nexts3(); Differ0();
    Head(64, 131); Link(aKWHash(64), 131, 24); Alone(24, 24); Entry(24, "ELSE", 78, 'E', 'E', 64);
    Head(79, 25); Alone(25, 25); Entry(25, "EXCEPT", 81, 'E', 'T', 79);
    Head(18, 122); Link(aKWHash(18), 122, 26); Alone(26, 26); Entry(26, "TRANSACTION", 86, 'T', 'N', 18);
    Head(73, 112); Link(aKWHash(73), 112, 27); Alone(27, 6); Apart(27, 27, 6);
    Entry(27, "ACTION", 91, 'A', 'N', 73);
    Head(117, 28); Alone(28, 28); Entry(28, "ON", 95, 'O', 'N', 117);
    Head(124, 84); Link(aKWHash(124), 84, 29); Alone(29, 29); Entry(29, "NATURAL", 96, 'N', 'L', 124);
    Head(88, 104); Link(aKWHash(88), 104, 90); Link(aKWHash(88), 90, 30); Alone(30, 30);
    Entry(30, "ALTER", 101, 'A', 'R', 88);
    Head(99, 58); Link(aKWHash(99), 58, 31); Alone(31, 31); Entry(31, "RAISE", 105, 'R', 'E', 99);
  }

  lemma Sound4()
    ensures Sound(32) && Sound(33) && Sound(34) && Sound(35) && Sound(36) && Sound(37) && Sound(38) && Sound(39)
  {
    hide aKWLen, aKWOffset, aKWHash, aKWNext, Word, WordIs, HashIs, TextHas, OnChain, NotOnChain, Sound;
    Words4(); Text8(); Text9(); Text10(); Text11(); Hashes10(); Hashes11(); Hashes12(); Hashes13(); Heads0();
    Heads1(); Heads2(); Heads3(); Heads4(); Nexts0(); Nexts1(); Nexts2(); Nexts3();
    Head(51, 43); Link(aKWHash(51), 43, 32); Alone(32, 32); Entry(32, "EXCLUSIVE", 109, 'E', 'E', 51);
    Head(76, 93); Link(aKWHash(76), 93, 33); Alone(33, 33); Entry(33, "EXISTS", 117, 'E', 'S', 76);
    Head(26, 129); Link(aKWHash(26), 129, 34); Alone(34, 34); Entry(34, "SAVEPOINT", 122, 'S', 'T', 26);
    Head(114, 126); Link(aKWHash(114), 126, 35); Alone(35, 35); Entry(35, "INTERSECT", 128, 'I', 'T', 114);
    Head(2, 123); Link(aKWHash(2), 123, 36); Alone(36, 36); Entry(36, "TRIGGER", 136, 'T', 'R', 2);
    Head(28, 127); Link(aKWHash(28), 127, 81); Link(aKWHash(28), 81, 74); Link(aKWHash(28), 74, 37); Alone(37, 37);
    Entry(37, "REFERENCES", 142, 'R', 'S', 28);
    Head(91, 38); Alone(38, 38); Entry(38, "CONSTRAINT", 152, 'C', 'T', 91);
    Head(110, 39); Alone(39, 39); Entry(39, "INTO", 159, 'I', 'O', 110);
  }

  lemma Sound5()
    ensures Sound(40) && Sound(41) && Sound(42) && Sound(43) && Sound(44) && Sound(45) && Sound(46) && Sound(47)
  {
    hide aKWLen, aKWOffset, aKWHash, aKWNext, Word, WordIs, HashIs, TextHas, OnChain, NotOnChain, Sound;
    Words5(); Text11(); Text12(); Text13(); Hashes13(); Hashes14(); Hashes15(); Hashes16(); Heads0(); Heads1();
    Heads3(); Heads4(); Nexts0(); Nexts1(); Nexts2(); Nexts3(); Differ0();
    Head(103, 118); Link(aKWHash(103), 118, 72); Link(aKWHash(103), 72, 40); Alone(40, 40);
    Entry(40, "OFFSET", 162, 'O', 'T', 103);
    Head(13, 41); Alone(41, 41); Entry(41, "OF", 162, 'O', 'F', 13);
    Head(20, 53); Link(aKWHash(20), 53, 42); Alone(42, 42); Entry(42, "SET", 165, 'S', 'T', 20);
    Head(51, 43); Alone(43, 32); Apart(43, 43, 32); Entry(43, "TEMPORARY", 167, 'T', 'Y', 51);
    Head(5, 44); Alone(44, 44); Entry(44, "TEMP", 167, 'T', 'P', 5);
    Head(105, 45); Alone(45, 20); Apart(45, 45, 20); Entry(45, "OR", 171, 'O', 'R', 105);
    Head(126, 55); Link(aKWHash(126), 55, 46); Alone(46, 46); Entry(46, "UNIQUE", 176, 'U', 'E', 126);
    Head(43, 47); Alone(47, 47); Entry(47, "QUERY", 179, 'Q', 'Y', 43);
  }

  lemma Sound6()
    ensures Sound(48) && Sound(49) && Sound(50) && Sound(51) && Sound(52) && Sound(53) && Sound(54) && Sound(55)
  {
    hide aKWLen, aKWOffset, aKWHash, aKWNext, Word, WordIs, HashIs, TextHas, OnChain, NotOnChain, Sound;
    Words6(); Text13(); Text14(); Text15(); Hashes17(); Hashes18(); Hashes19(); Heads0(); Heads2(); Heads3();
    Heads4(); Nexts0(); Nexts1(); Nexts2(); Nexts3(); Differ1();
    Head(8, 80); Link(aKWHash(8), 80, 48); Alone(48, 48); Entry(48, "WITHOUT", 184, 'W', 'T', 8);
    Head(97, 113); Link(aKWHash(97), 113, 51); Link(aKWHash(97), 51, 49); Alone(49, 49);
    Entry(49, "WITH", 184, 'W', 'H', 97);
    Head(112, 119); Link(aKWHash(112), 119, 50); Alone(50, 50); Entry(50, "OUTER", 188, 'O', 'R', 112);
    Head(97, 113); Link(aKWHash(97), 113, 51); Alone(51, 49); Apart(51, 51, 49);
    Entry(51, "RELEASE", 192, 'R', 'E', 97);
    Head(59, 52); Alone(52, 52); Entry(52, "ATTACH", 199, 'A', 'H', 59);
    Head(20, 53); Alone(53, 42); Apart(53, 53, 42); Entry(53, "HAVING", 204, 'H', 'G', 20);
    Head(74, 54); Alone(54, 2); Apart(54, 54, 2); Entry(54, "GROUP", 209, 'G', 'P', 74);
    Head(126, 55); Alone(55, 46); Apart(55, 55, 46); Entry(55, "UPDATE", 212, 'U', 'E', 126);
  }

  lemma Sound7()
    ensures Sound(56) && Sound(57) && Sound(58) && Sound(59) && Sound(60) && Sound(61) && Sound(62) && Sound(63)
  {
    hide aKWLen, aKWOffset, aKWHash, aKWNext, Word, WordIs, HashIs, TextHas, OnChain, NotOnChain, Sound;
    Words7(); Text15(); Text16(); Text17(); Hashes19(); Hashes20(); Hashes21(); Hashes22(); Heads0(); Heads1();
    Heads2(); Heads3(); Heads4(); Nexts0(); Nexts1(); Nexts2(); Nexts3(); Differ1();
    Head(72, 56); Alone(56, 56); Entry(56, "BEGIN", 218, 'B', 'N', 72);
    Head(120, 86); Link(aKWHash(120), 86, 57); Alone(57, 57); Entry(57, "INNER", 221, 'I', 'R', 120);
    Head(99, 58); Alone(58, 31); Apart(58, 58, 31); Entry(58, "RANGE", 225, 'R', 'E', 99);
    Head(70, 59); Alone(59, 59); Entry(59, "BETWEEN", 230, 'B', 'N', 70);
    Head(11, 60); Alone(60, 60); Entry(60, "NOTHING", 236, 'N', 'G', 11);
    Head(63, 61); Alone(61, 61); Entry(61, "GLOB", 242, 'G', 'B', 63);
    Head(98, 91); Link(aKWHash(98), 91, 62); Alone(62, 62); Entry(62, "BY", 245, 'B', 'Y', 98);
    Head(37, 114); Link(aKWHash(37), 114, 67); Link(aKWHash(37), 67, 63); Alone(63, 63);
    Entry(63, "CASCADE", 247, 'C', 'E', 37);
  }

  lemma Sound8()
    ensures Sound(64) && Sound(65) && Sound(66) && Sound(67) && Sound(68) && Sound(69) && Sound(70) && Sound(71)
  {
    hide aKWLen, aKWOffset, aKWHash, aKWNext, Word, WordIs, HashIs, TextHas, OnChain, NotOnChain, Sound;
    Words8(); Text17(); Text18(); Text19(); Text20(); Hashes22(); Hashes23(); Hashes24(); Heads0(); Heads1();
    Heads2(); Nexts0(); Nexts1(); Nexts2(); Nexts3(); Differ1(); Differ2();
    Head(47, 125); Link(aKWHash(47), 125, 70); Link(aKWHash(47), 70, 64); Alone(64, 64);
    Entry(64, "ASC", 248, 'A', 'C', 47);
    Head(58, 130); Link(aKWHash(58), 130, 65); Alone(65, 65); Entry(65, "DELETE", 252, 'D', 'E', 58);
    Head(40, 66); Alone(66, 0); Apart(66, 66, 0); Entry(66, "CASE", 258, 'C', 'E', 40);
    Head(37, 114); Link(aKWHash(37), 114, 67); Alone(67, 63); Apart(67, 67, 63);
    Entry(67, "COLLATE", 262, 'C', 'E', 37);
    Head(38, 68); Alone(68, 68); Entry(68, "CREATE", 269, 'C', 'E', 38);
    Head(48, 103); Link(aKWHash(48), 103, 69); Alone(69, 69); Entry(69, "CURRENT_DATE", 275, 'C', 'E', 48);
    Head(47, 125); Link(aKWHash(47), 125, 70); Alone(70, 64); Apart(70, 70, 64);
    Entry(70, "DETACH", 287, 'D', 'H', 47);
    Head(3, 71); Alone(71, 71); Entry(71, "IMMEDIATE", 293, 'I', 'E', 3);
  }

  lemma Sound9()
    ensures Sound(72) && Sound(73) && Sound(74) && Sound(75) && Sound(76) && Sound(77) && Sound(78) && Sound(79)
  {
    hide aKWLen, aKWOffset, aKWHash, aKWNext, Word, WordIs, HashIs, TextHas, OnChain, NotOnChain, Sound;
    Words9(); Text20(); Text21(); Text22(); Hashes25(); Hashes26(); Hashes27(); Heads0(); Heads1(); Heads3();
    Nexts1(); Nexts2(); Nexts3(); Differ2();
    Head(103, 118); Link(aKWHash(103), 118, 72); Alone(72, 40); Apart(72, 72, 40);
    Entry(72, "JOIN", 302, 'J', 'N', 103);
    Head(0, 73); Alone(73, 73); Entry(73, "INSERT", 304, 'I', 'T', 0);
    Head(28, 127); Link(aKWHash(28), 127, 81); Link(aKWHash(28), 81, 74); Alone(74, 37); Apart(74, 74, 37);
    Entry(74, "LIKE", 310, 'L', 'E', 28);
    Head(10, 75); Alone(75, 75); Entry(75, "MATCH", 314, 'M', 'H', 10);
    Head(15, 76); Alone(76, 76); Entry(76, "PLAN", 319, 'P', 'N', 15);
    Head(45, 135); Link(aKWHash(45), 135, 77); Alone(77, 77); Entry(77, "ANALYZE", 321, 'A', 'E', 45);
    Head(102, 78); Alone(78, 78); Entry(78, "PRAGMA", 328, 'P', 'A', 102);
    Head(94, 79); Alone(79, 79); Entry(79, "ABORT", 333, 'A', 'T', 94);
  }

  lemma Sound10()
    ensures Sound(80) && Sound(81) && Sound(82) && Sound(83) && Sound(84) && Sound(85) && Sound(86) && Sound(87)
  {
    hide aKWLen, aKWOffset, aKWHash, aKWNext, Word, WordIs, HashIs, TextHas, OnChain, NotOnChain, Sound;
    Words10(); Text22(); Text23(); Hashes27(); Hashes28(); Hashes29(); Hashes30(); Heads0(); Heads1(); Heads4();
    Nexts0(); Nexts1(); Nexts2(); Nexts3(); Differ2(); Differ3();
    Head(8, 80); Alone(80, 48); Apart(80, 80, 48); Entry(80, "VALUES", 338, 'V', 'S', 8);
    Head(28, 127); Link(aKWHash(28), 127, 81); Alone(81, 37); Apart(81, 74, 37); Apart(81, 81, 74);
    Entry(81, "VIRTUAL", 344, 'V', 'L', 28);
    Head(106, 82); Alone(82, 82); Entry(82, "LIMIT", 350, 'L', 'T', 106);
    Head(19, 83); Alone(83, 83); Entry(83, "WHEN", 355, 'W', 'N', 19);
    Head(124, 84); Alone(84, 29); Apart(84, 84, 29); Entry(84, "NOTNULL", 358, 'N', 'L', 124);
    Head(104, 85); Alone(85, 85); Entry(85, "NOT", 358, 'N', 'T', 104);
    Head(120, 86); Alone(86, 57); Apart(86, 86, 57); Entry(86, "NO", 358, 'N', 'O', 120);
    Head(121, 87); Alone(87, 87); Entry(87, "NULL", 361, 'N', 'L', 121);
  }

  lemma Sound11()
    ensures Sound(88) && Sound(89) && Sound(90) && Sound(91) && Sound(92) && Sound(93) && Sound(94) && Sound(95)
  {
    hide aKWLen, aKWOffset, aKWHash, aKWNext, Word, WordIs, HashIs, TextHas, OnChain, NotOnChain, Sound;
    Words11(); Text24(); Text25(); Text26(); Hashes30(); Hashes31(); Hashes32(); Heads1(); Heads2(); Heads3();
    Heads4(); Nexts0(); Nexts1(); Nexts2(); Nexts3(); Differ3(); Differ4();
    Head(119, 88); Alone(88, 88); Entry(88, "WHERE", 365, 'W', 'E', 119);
    Head(111, 121); Link(aKWHash(111), 121, 89); Alone(89, 89); Entry(89, "RECURSIVE", 368, 'R', 'E', 111);
    Head(88, 104); Link(aKWHash(88), 104, 90); Alone(90, 30); Apart(90, 90, 30);
    Entry(90, "AFTER", 377, 'A', 'R', 88);
    Head(98, 91); Alone(91, 62); Apart(91, 91, 62); Entry(91, "RENAME", 381, 'R', 'E', 98);
    Head(44, 92); Alone(92, 15); Apart(92, 92, 15); Entry(92, "AND", 387, 'A', 'D', 44);
    Head(76, 93); Alone(93, 33); Apart(93, 93, 33); Entry(93, "DEFAULT", 389, 'D', 'T', 76);
    Head(86, 94); Alone(94, 9); Apart(94, 94, 9); Entry(94, "AUTOINCREMENT", 396, 'A', 'T', 86);
    Head(32, 95); Alone(95, 95); Entry(95, "TO", 398, 'T', 'O', 32);
  }

  lemma Sound12()
    ensures Sound(96) && Sound(97) && Sound(98) && Sound(99) && Sound(100) && Sound(101) && Sound(102)
    ensures Sound(103)
  {
    hide aKWLen, aKWOffset, aKWHash, aKWNext, Word, WordIs, HashIs, TextHas, OnChain, NotOnChain, Sound;
    Words12(); Text26(); Text27(); Text28(); Text29(); Text30(); Hashes33(); Hashes34(); Hashes35(); Heads1();
    Heads2(); Heads3(); Heads4(); Nexts0(); Nexts2(); Nexts3(); Differ4();
    Head(109, 96); Alone(96, 96); Entry(96, "IN", 400, 'I', 'N', 109);
    Head(85, 97); Alone(97, 97); Entry(97, "CAST", 409, 'C', 'T', 85);
    Head(65, 98); Alone(98, 98); Entry(98, "COLUMN", 413, 'C', 'N', 65);
    Head(87, 99); Alone(99, 99); Entry(99, "COMMIT", 419, 'C', 'T', 87);
    Head(89, 116); Link(aKWHash(89), 116, 111); Link(aKWHash(89), 111, 100); Alone(100, 100);
    Entry(100, "CONFLICT", 425, 'C', 'T', 89);
    Head(81, 101); Alone(101, 101); Entry(101, "CROSS", 433, 'C', 'S', 81);
    Head(78, 102); Alone(102, 10); Apart(102, 102, 10); Entry(102, "CURRENT_TIMESTAMP", 438, 'C', 'P', 78);
    Head(48, 103); Alone(103, 69); Apart(103, 103, 69); Entry(103, "CURRENT_TIME", 438, 'C', 'E', 48);
  }

  lemma Sound13()
    ensures Sound(104) && Sound(105) && Sound(106) && Sound(107) && Sound(108) && Sound(109) && Sound(110)
    ensures Sound(111)
  {
    hide aKWLen, aKWOffset, aKWHash, aKWNext, Word, WordIs, HashIs, TextHas, OnChain, NotOnChain, Sound;
    Words13(); Text30(); Text31(); Text32(); Text33(); Text34(); Hashes35(); Hashes36(); Hashes37(); Hashes38();
    Heads0(); Heads1(); Heads2(); Heads3(); Heads4(); Nexts0(); Nexts2(); Nexts3(); Differ4(); Differ5();
    Head(88, 104); Alone(104, 30); Apart(104, 90, 30); Apart(104, 104, 90);
    Entry(104, "CURRENT", 438, 'C', 'T', 88);
    Head(4, 105); Alone(105, 105); Entry(105, "PARTITION", 454, 'P', 'N', 4);
    Head(53, 106); Alone(106, 106); Entry(106, "DEFERRED", 463, 'D', 'D', 53);
    Head(69, 109); Link(aKWHash(69), 109, 107); Alone(107, 7); Apart(107, 107, 7);
    Entry(107, "DISTINCT", 470, 'D', 'T', 69);
    Head(1, 108); Alone(108, 108); Entry(108, "IS", 471, 'I', 'S', 1);
    Head(69, 109); Alone(109, 7); Apart(109, 107, 7); Apart(109, 109, 107); Entry(109, "DROP", 478, 'D', 'P', 69);
    Head(125, 110); Alone(110, 110); Entry(110, "PRECEDING", 481, 'P', 'G', 125);
    Head(89, 116); Link(aKWHash(89), 116, 111); Alone(111, 100); Apart(111, 111, 100);
    Entry(111, "FAIL", 490, 'F', 'L', 89);
  }

  lemma Sound14()
    ensures Sound(112) && Sound(113) && Sound(114) && Sound(115) && Sound(116) && Sound(117) && Sound(118)
    ensures Sound(119)
  {
    hide aKWLen, aKWOffset, aKWHash, aKWNext, Word, WordIs, HashIs, TextHas, OnChain, NotOnChain, Sound;
    Words14(); Text34(); Text35(); Text36(); Hashes38(); Hashes39(); Hashes40(); Heads0(); Heads1(); Heads2();
    Heads3(); Heads4(); Nexts0(); Nexts1(); Nexts2(); Nexts3(); Differ5(); Differ6(); Differ7();
    Head(73, 112); Alone(112, 6); Apart(112, 27, 6); Apart(112, 112, 27); Entry(112, "FILTER", 494, 'F', 'R', 73);
    Head(97, 113); Alone(113, 49); Apart(113, 51, 49); Apart(113, 113, 51);
    Entry(113, "REPLACE", 499, 'R', 'E', 97);
    Head(37, 114); Alone(114, 63); Apart(114, 67, 63); Apart(114, 114, 67);
    Entry(114, "FOLLOWING", 506, 'F', 'G', 37);
    Head(92, 115); Alone(115, 115); Entry(115, "FROM", 515, 'F', 'M', 92);
    Head(89, 116); Alone(116, 100); Apart(116, 111, 100); Apart(116, 116, 111);
    Entry(116, "FULL", 519, 'F', 'L', 89);
    Head(21, 117); Alone(117, 117); Entry(117, "IF", 523, 'I', 'F', 21);
    Head(103, 118); Alone(118, 40); Apart(118, 72, 40); Apart(118, 118, 72);
    Entry(118, "ISNULL", 525, 'I', 'L', 103);
    Head(112, 119); Alone(119, 50); Apart(119, 119, 50); Entry(119, "ORDER", 531, 'O', 'R', 112);
  }

  lemma Sound15()
    ensures Sound(120) && Sound(121) && Sound(122) && Sound(123) && Sound(124) && Sound(125) && Sound(126)
    ensures Sound(127)
  {
    hide aKWLen, aKWOffset, aKWHash, aKWNext, Word, WordIs, HashIs, TextHas, OnChain, NotOnChain, Sound;
    Words15(); Text36(); Text37(); Text38(); Hashes41(); Hashes42(); Hashes43(); Heads0(); Heads1(); Heads4();
    Nexts0(); Nexts1(); Nexts2(); Nexts3(); Differ7(); Differ8();
    Head(29, 120); Alone(120, 120); Entry(120, "RESTRICT", 535, 'R', 'T', 29);
    Head(111, 121); Alone(121, 89); Apart(121, 121, 89); Entry(121, "OVER", 543, 'O', 'R', 111);
    Head(18, 122); Alone(122, 26); Apart(122, 122, 26); Entry(122, "RIGHT", 546, 'R', 'T', 18);
    Head(2, 123); Alone(123, 36); Apart(123, 123, 36); Entry(123, "ROLLBACK", 551, 'R', 'K', 2);
    Head(22, 124); Alone(124, 124); Entry(124, "ROWS", 559, 'R', 'S', 22);
    Head(47, 125); Alone(125, 64); Apart(125, 70, 64); Apart(125, 125, 70); Entry(125, "ROW", 559, 'R', 'W', 47);
    Head(114, 126); Alone(126, 35); Apart(126, 126, 35); Entry(126, "UNBOUNDED", 563, 'U', 'D', 114);
    Head(28, 127); Alone(127, 37); Apart(127, 74, 37); Apart(127, 81, 74); Apart(127, 127, 81);
    Entry(127, "UNION", 572, 'U', 'N', 28);
  }

  lemma Sound16()
    ensures Sound(128) && Sound(129) && Sound(130) && Sound(131) && Sound(132) && Sound(133) && Sound(134)
    ensures Sound(135)
  {
    hide aKWLen, aKWOffset, aKWHash, aKWNext, Word, WordIs, HashIs, TextHas, OnChain, NotOnChain, Sound;
    Words16(); Text38(); Text39(); Text40(); Hashes43(); Hashes44(); Hashes45(); Hashes46(); Heads1(); Heads2();
    Heads3(); Nexts0(); Nexts1(); Nexts2(); Nexts3(); Differ9();
    Head(101, 128); Alone(128, 128); Entry(128, "USING", 577, 'U', 'G', 101);
    Head(26, 129); Alone(129, 34); Apart(129, 129, 34); Entry(129, "VACUUM", 582, 'V', 'M', 26);
    Head(58, 130); Alone(130, 65); Apart(130, 130, 65); Entry(130, "VIEW", 588, 'V', 'W', 58);
    Head(64, 131); Alone(131, 24); Apart(131, 131, 24); Entry(131, "WINDOW", 591, 'W', 'W', 64);
    Head(96, 132); Alone(132, 17); Apart(132, 132, 17); Entry(132, "DO", 594, 'D', 'O', 96);
    Head(71, 133); Alone(133, 133); Entry(133, "INITIALLY", 597, 'I', 'Y', 71);
    Head(68, 134); Alone(134, 134); Entry(134, "ALL", 602, 'A', 'L', 68);
    Head(45, 135); Alone(135, 77); Apart(135, 135, 77); Entry(135, "PRIMARY", 606, 'P', 'Y', 45);
  }

  lemma AllSound(i: nat)
    requires i < KEYWORDS
    ensures Sound(i)
  {
    hide Sound;
    if i < 8 {
      Sound0();
    } else if i < 16 {
      Sound1();
    } else if i < 24 {
      Sound2();
    } else if i < 32 {
      Sound3();
    } else if i < 40 {
      Sound4();
    } else if i < 48 {
      Sound5();
    } else if i < 56 {
      Sound6();
    } else if i < 64 {
      Sound7();
    } else if i < 72 {
      Sound8();
    } else if i < 80 {
      Sound9();
    } else if i < 88 {
      Sound10();
    } else if i < 96 {
      Sound11();
    } else if i < 104 {
      Sound12();
    } else if i < 112 {
      Sound13();
    } else if i < 120 {
      Sound14();
    } else if i < 128 {
      Sound15();
    } else {
      Sound16();
    }
  }
}

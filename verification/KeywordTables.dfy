/**
 The tables of the SQL keyword hash, laid out in the source's own rows, and the
 list of the keywords they encode.
 */
module KeywordTables {
  import opened KeywordTokens

  const KEYWORDS := 136
  const TEXT_SIZE := 613
  const BUCKETS := 127

  predicate Letter(c: char) {
    'A' <= c <= 'Z' || c == '_'
  }

  /** The packed text, in which the keywords overlap. */
  function zKWText(j: nat): (c: char)
    requires j < TEXT_SIZE
    ensures Letter(c)
  {
    if j < 126 then TextRows0(j) else
    if j < 252 then TextRows1(j) else
    if j < 378 then TextRows2(j) else
    if j < 504 then TextRows3(j) else
    TextRows4(j)
  }

  function TextRows0(j: nat): (c: char)
    requires 0 <= j < 126
    ensures Letter(c)
  {
    if j < 18 then "REINDEXEDESCAPEACH"[j - 0] else
    if j < 36 then "ECKEYBEFOREIGNOREG"[j - 18] else
    if j < 54 then "EXPLAINSTEADDATABA"[j - 36] else
    if j < 72 then "SELECTABLEFTHENDEF"[j - 54] else
    if j < 90 then "ERRABLELSEXCEPTRAN"[j - 72] else
    if j < 108 then "SACTIONATURALTERAI"[j - 90] else
    "SEXCLUSIVEXISTSAVE"[j - 108]
  }

  function TextRows1(j: nat): (c: char)
    requires 126 <= j < 252
    ensures Letter(c)
  {
    if j < 144 then "POINTERSECTRIGGERE"[j - 126] else
    if j < 162 then "FERENCESCONSTRAINT"[j - 144] else
    if j < 180 then "OFFSETEMPORARYUNIQ"[j - 162] else
    if j < 198 then "UERYWITHOUTERELEAS"[j - 180] else
    if j < 216 then "EATTACHAVINGROUPDA"[j - 198] else
    if j < 234 then "TEBEGINNERANGEBETW"[j - 216] else
    "EENOTHINGLOBYCASCA"[j - 234]
  }

  function TextRows2(j: nat): (c: char)
    requires 252 <= j < 378
    ensures Letter(c)
  {
    if j < 270 then "DELETECASECOLLATEC"[j - 252] else
    if j < 288 then "REATECURRENT_DATED"[j - 270] else
    if j < 306 then "ETACHIMMEDIATEJOIN"[j - 288] else
    if j < 324 then "SERTLIKEMATCHPLANA"[j - 306] else
    if j < 342 then "LYZEPRAGMABORTVALU"[j - 324] else
    if j < 360 then "ESVIRTUALIMITWHENO"[j - 342] else
    "TNULLWHERECURSIVEA"[j - 360]
  }

  function TextRows3(j: nat): (c: char)
    requires 378 <= j < 504
    ensures Letter(c)
  {
    if j < 396 then "FTERENAMEANDEFAULT"[j - 378] else
    if j < 414 then "AUTOINCREMENTCASTC"[j - 396] else
    if j < 432 then "OLUMNCOMMITCONFLIC"[j - 414] else
    if j < 450 then "TCROSSCURRENT_TIME"[j - 432] else
    if j < 468 then "STAMPARTITIONDEFER"[j - 450] else
    if j < 486 then "REDISTINCTDROPRECE"[j - 468] else
    "DINGFAILFILTEREPLA"[j - 486]
  }

  function TextRows4(j: nat): (c: char)
    requires 504 <= j < 613
    ensures Letter(c)
  {
    if j < 522 then "CEFOLLOWINGFROMFUL"[j - 504] else
    if j < 540 then "LIFISNULLORDERESTR"[j - 522] else
    if j < 558 then "ICTOVERIGHTROLLBAC"[j - 540] else
    if j < 576 then "KROWSUNBOUNDEDUNIO"[j - 558] else
    if j < 594 then "NUSINGVACUUMVIEWIN"[j - 576] else
    if j < 612 then "DOWINITIALLYPRIMAR"[j - 594] else
    "Y"[j - 612]
  }

  /** The first keyword of each bucket, counted from 1; 0 marks an empty bucket. */
  function aKWHash(i: nat): (r: nat)
    requires i < BUCKETS
    ensures r <= KEYWORDS
  {
    if i < 65 then aKWHashLow(i) else aKWHashHigh(i)
  }

  function aKWHashLow(i: nat): (r: nat)
    requires i < 65
    ensures r <= KEYWORDS
  {
    if i < 13 then [74, 109, 124, 72, 106, 45, 0, 0, 81, 0, 76, 61, 0][i - 0] else
    if i < 26 then [42, 12, 77, 15, 0, 123, 84, 54, 118, 125, 19, 0, 0][i - 13] else
    if i < 39 then [130, 0, 128, 121, 0, 22, 96, 0, 9, 0, 0, 115, 69][i - 26] else
    if i < 52 then [0, 67, 6, 0, 48, 93, 136, 0, 126, 104, 0, 0, 44][i - 39] else
    [0, 107, 24, 0, 17, 0, 131, 53, 23, 0, 5, 62, 132][i - 52]
  }

  function aKWHashHigh(i: nat): (r: nat)
    requires 65 <= i < BUCKETS
    ensures r <= KEYWORDS
  {
    if i < 78 then [99, 0, 0, 135, 110, 60, 134, 57, 113, 55, 0, 94, 0][i - 65] else
    if i < 91 then [103, 26, 0, 102, 0, 0, 0, 98, 95, 100, 105, 117, 14][i - 78] else
    if i < 104 then [39, 116, 0, 80, 0, 133, 114, 92, 59, 0, 129, 79, 119][i - 91] else
    if i < 117 then [86, 46, 83, 0, 0, 97, 40, 122, 120, 0, 127, 0, 0][i - 104] else
    [29, 0, 89, 87, 88, 0, 20, 85, 111, 56][i - 117]
  }

  /** The next keyword in the same bucket, counted from 1; it always comes before keyword `i`. */
  function aKWNext(i: nat): (r: nat)
    requires i < KEYWORDS
    ensures r <= i
  {
    if i < 78 then aKWNextLow(i) else aKWNextHigh(i)
  }

  function aKWNextLow(i: nat): (r: nat)
    requires i < 78
    ensures r <= i
  {
    if i < 13 then [0, 0, 0, 0, 4, 0, 0, 0, 0, 0, 0, 0, 0][i - 0] else
    if i < 26 then [0, 2, 0, 0, 0, 0, 0, 0, 13, 0, 0, 0, 0][i - 13] else
    if i < 39 then [0, 7, 0, 0, 0, 0, 0, 0, 0, 0, 0, 0, 0][i - 26] else
    if i < 52 then [0, 0, 0, 0, 33, 0, 21, 0, 0, 0, 0, 0, 50][i - 39] else
    if i < 65 then [0, 43, 3, 47, 0, 0, 32, 0, 0, 0, 0, 0, 0][i - 52] else
    [0, 1, 64, 0, 0, 65, 0, 41, 0, 38, 0, 0, 0][i - 65]
  }

  function aKWNextHigh(i: nat): (r: nat)
    requires 78 <= i < KEYWORDS
    ensures r <= i
  {
    if i < 91 then [0, 0, 49, 75, 0, 0, 30, 0, 58, 0, 0, 0, 31][i - 78] else
    if i < 104 then [63, 16, 34, 10, 0, 0, 0, 0, 0, 0, 0, 11, 70][i - 91] else
    if i < 117 then [91, 0, 0, 8, 0, 108, 0, 101, 28, 52, 68, 0, 112][i - 104] else
    if i < 130 then [0, 73, 51, 0, 90, 27, 37, 0, 71, 36, 82, 0, 35][i - 117] else
    [66, 25, 18, 0, 0, 78][i - 130]
  }

  /** The length of keyword `i`. */
  function aKWLen(i: nat): (r: nat)
    requires i < KEYWORDS
  {
    if i < 78 then aKWLenLow(i) else aKWLenHigh(i)
  }

  function aKWLenLow(i: nat): (r: nat)
    requires i < 78
  {
    if i < 13 then [7, 7, 5, 4, 6, 4, 5, 3, 6, 7, 3, 6, 6][i - 0] else
    if i < 26 then [7, 7, 3, 8, 2, 6, 5, 4, 4, 3, 10, 4, 6][i - 13] else
    if i < 39 then [11, 6, 2, 7, 5, 5, 9, 6, 9, 9, 7, 10, 10][i - 26] else
    if i < 52 then [4, 6, 2, 3, 9, 4, 2, 6, 5, 7, 4, 5, 7][i - 39] else
    if i < 65 then [6, 6, 5, 6, 5, 5, 5, 7, 7, 4, 2, 7, 3][i - 52] else
    [6, 4, 7, 6, 12, 6, 9, 4, 6, 4, 5, 4, 7][i - 65]
  }

  function aKWLenHigh(i: nat): (r: nat)
    requires 78 <= i < KEYWORDS
  {
    if i < 91 then [6, 5, 6, 7, 5, 4, 7, 3, 2, 4, 5, 9, 5][i - 78] else
    if i < 104 then [6, 3, 7, 13, 2, 2, 4, 6, 6, 8, 5, 17, 12][i - 91] else
    if i < 117 then [7, 9, 8, 8, 2, 4, 9, 4, 6, 7, 9, 4, 4][i - 104] else
    if i < 130 then [2, 6, 5, 8, 4, 5, 8, 4, 3, 9, 5, 5, 6][i - 117] else
    [4, 6, 2, 9, 3, 7][i - 130]
  }

  /** Where the text of keyword `i` starts in `zKWText`. */
  function aKWOffset(i: nat): (r: nat)
    requires i < KEYWORDS
  {
    if i < 78 then aKWOffsetLow(i) else aKWOffsetHigh(i)
  }

  function aKWOffsetLow(i: nat): (r: nat)
    requires i < 78
  {
    if i < 13 then [0, 2, 2, 8, 9, 14, 16, 20, 23, 25, 25, 29, 33][i - 0] else
    if i < 26 then [36, 41, 46, 48, 53, 54, 59, 62, 65, 67, 69, 78, 81][i - 13] else
    if i < 39 then [86, 91, 95, 96, 101, 105, 109, 117, 122, 128, 136, 142, 152][i - 26] else
    if i < 52 then [159, 162, 162, 165, 167, 167, 171, 176, 179, 184, 184, 188, 192][i - 39] else
    if i < 65 then [199, 204, 209, 212, 218, 221, 225, 230, 236, 242, 245, 247, 248][i - 52] else
    [252, 258, 262, 269, 275, 287, 293, 302, 304, 310, 314, 319, 321][i - 65]
  }

  function aKWOffsetHigh(i: nat): (r: nat)
    requires 78 <= i < KEYWORDS
  {
    if i < 91 then [328, 333, 338, 344, 350, 355, 358, 358, 358, 361, 365, 368, 377][i - 78] else
    if i < 104 then [381, 387, 389, 396, 398, 400, 409, 413, 419, 425, 433, 438, 438][i - 91] else
    if i < 117 then [438, 454, 463, 470, 471, 478, 481, 490, 494, 499, 506, 515, 519][i - 104] else
    if i < 130 then [523, 525, 531, 535, 543, 546, 551, 559, 559, 563, 572, 577, 582][i - 117] else
    [588, 591, 594, 597, 602, 606][i - 130]
  }

  /** The parser symbol of keyword `i`; no keyword has the symbol of a plain identifier. */
  function aKWCode(i: nat): (r: nat)
    requires i < KEYWORDS
    ensures r != TK_ID
  {
    if i < 70 then aKWCodeLow(i) else aKWCodeHigh(i)
  }

  function aKWCodeLow(i: nat): (r: nat)
    requires i < 70
    ensures r != TK_ID
  {
    if i < 5 then [TK_REINDEX, TK_INDEXED, TK_INDEX, TK_DESC, TK_ESCAPE][i - 0] else
    if i < 10 then [TK_EACH, TK_CHECK, TK_KEY, TK_BEFORE, TK_FOREIGN][i - 5] else
    if i < 15 then [TK_FOR, TK_IGNORE, TK_LIKE_KW, TK_EXPLAIN, TK_INSTEAD][i - 10] else
    if i < 20 then [TK_ADD, TK_DATABASE, TK_AS, TK_SELECT, TK_TABLE][i - 15] else
    if i < 25 then [TK_JOIN_KW, TK_THEN, TK_END, TK_DEFERRABLE, TK_ELSE][i - 20] else
    if i < 30 then [TK_EXCEPT, TK_TRANSACTION, TK_ACTION, TK_ON, TK_JOIN_KW][i - 25] else
    if i < 35 then [TK_ALTER, TK_RAISE, TK_EXCLUSIVE, TK_EXISTS, TK_SAVEPOINT][i - 30] else
    if i < 40 then [TK_INTERSECT, TK_TRIGGER, TK_REFERENCES, TK_CONSTRAINT, TK_INTO][i - 35] else
    if i < 45 then [TK_OFFSET, TK_OF, TK_SET, TK_TEMP, TK_TEMP][i - 40] else
    if i < 50 then [TK_OR, TK_UNIQUE, TK_QUERY, TK_WITHOUT, TK_WITH][i - 45] else
    if i < 55 then [TK_JOIN_KW, TK_RELEASE, TK_ATTACH, TK_HAVING, TK_GROUP][i - 50] else
    if i < 60 then [TK_UPDATE, TK_BEGIN, TK_JOIN_KW, TK_RANGE, TK_BETWEEN][i - 55] else
    if i < 65 then [TK_NOTHING, TK_LIKE_KW, TK_BY, TK_CASCADE, TK_ASC][i - 60] else
    [TK_DELETE, TK_CASE, TK_COLLATE, TK_CREATE, TK_CTIME_KW][i - 65]
  }

  function aKWCodeHigh(i: nat): (r: nat)
    requires 70 <= i < KEYWORDS
    ensures r != TK_ID
  {
    if i < 75 then [TK_DETACH, TK_IMMEDIATE, TK_JOIN, TK_INSERT, TK_LIKE_KW][i - 70] else
    if i < 80 then [TK_MATCH, TK_PLAN, TK_ANALYZE, TK_PRAGMA, TK_ABORT][i - 75] else
    if i < 85 then [TK_VALUES, TK_VIRTUAL, TK_LIMIT, TK_WHEN, TK_NOTNULL][i - 80] else
    if i < 90 then [TK_NOT, TK_NO, TK_NULL, TK_WHERE, TK_RECURSIVE][i - 85] else
    if i < 95 then [TK_AFTER, TK_RENAME, TK_AND, TK_DEFAULT, TK_AUTOINCR][i - 90] else
    if i < 100 then [TK_TO, TK_IN, TK_CAST, TK_COLUMNKW, TK_COMMIT][i - 95] else
    if i < 105 then [TK_CONFLICT, TK_JOIN_KW, TK_CTIME_KW, TK_CTIME_KW, TK_CURRENT][i - 100] else
    if i < 110 then [TK_PARTITION, TK_DEFERRED, TK_DISTINCT, TK_IS, TK_DROP][i - 105] else
    if i < 115 then [TK_PRECEDING, TK_FAIL, TK_FILTER, TK_REPLACE, TK_FOLLOWING][i - 110] else
    if i < 120 then [TK_FROM, TK_JOIN_KW, TK_IF, TK_ISNULL, TK_ORDER][i - 115] else
    if i < 125 then [TK_RESTRICT, TK_OVER, TK_JOIN_KW, TK_ROLLBACK, TK_ROWS][i - 120] else
    if i < 130 then [TK_ROW, TK_UNBOUNDED, TK_UNION, TK_USING, TK_VACUUM][i - 125] else
    if i < 135 then [TK_VIEW, TK_WINDOW, TK_DO, TK_INITIALLY, TK_ALL][i - 130] else
    [TK_PRIMARY][i - 135]
  }

  /** The keywords themselves, in the order of the tables. */
  function Word(i: nat): (r: string)
    requires i < KEYWORDS
  {
    if i < 13 then ["REINDEX", "INDEXED", "INDEX", "DESC", "ESCAPE", "EACH", "CHECK", "KEY", "BEFORE",
      "FOREIGN", "FOR", "IGNORE", "REGEXP"][i - 0] else
    if i < 26 then ["EXPLAIN", "INSTEAD", "ADD", "DATABASE", "AS", "SELECT", "TABLE", "LEFT", "THEN",
      "END", "DEFERRABLE", "ELSE", "EXCEPT"][i - 13] else
    if i < 39 then ["TRANSACTION", "ACTION", "ON", "NATURAL", "ALTER", "RAISE", "EXCLUSIVE", "EXISTS",
      "SAVEPOINT", "INTERSECT", "TRIGGER", "REFERENCES", "CONSTRAINT"][i - 26] else
    if i < 52 then ["INTO", "OFFSET", "OF", "SET", "TEMPORARY", "TEMP", "OR", "UNIQUE", "QUERY", "WITHOUT",
      "WITH", "OUTER", "RELEASE"][i - 39] else
    if i < 65 then ["ATTACH", "HAVING", "GROUP", "UPDATE", "BEGIN", "INNER", "RANGE", "BETWEEN", "NOTHING",
      "GLOB", "BY", "CASCADE", "ASC"][i - 52] else
    if i < 78 then ["DELETE", "CASE", "COLLATE", "CREATE", "CURRENT_DATE", "DETACH", "IMMEDIATE", "JOIN",
      "INSERT", "LIKE", "MATCH", "PLAN", "ANALYZE"][i - 65] else
    if i < 91 then ["PRAGMA", "ABORT", "VALUES", "VIRTUAL", "LIMIT", "WHEN", "NOTNULL", "NOT", "NO",
      "NULL", "WHERE", "RECURSIVE", "AFTER"][i - 78] else
    if i < 104 then ["RENAME", "AND", "DEFAULT", "AUTOINCREMENT", "TO", "IN", "CAST", "COLUMN", "COMMIT",
      "CONFLICT", "CROSS", "CURRENT_TIMESTAMP", "CURRENT_TIME"][i - 91] else
    if i < 117 then ["CURRENT", "PARTITION", "DEFERRED", "DISTINCT", "IS", "DROP", "PRECEDING", "FAIL",
      "FILTER", "REPLACE", "FOLLOWING", "FROM", "FULL"][i - 104] else
    if i < 130 then ["IF", "ISNULL", "ORDER", "RESTRICT", "OVER", "RIGHT", "ROLLBACK", "ROWS", "ROW",
      "UNBOUNDED", "UNION", "USING", "VACUUM"][i - 117] else
    ["VIEW", "WINDOW", "DO", "INITIALLY", "ALL", "PRIMARY"][i - 130]
  }
}

/** The parser symbols of the keywords, and of a plain identifier, as the generated parser numbers them. */
module KeywordTokens {
  const TK_EXPLAIN := 2
  const TK_QUERY := 3
  const TK_PLAN := 4
  const TK_BEGIN := 5
  const TK_TRANSACTION := 6
  const TK_DEFERRED := 7
  const TK_IMMEDIATE := 8
  const TK_EXCLUSIVE := 9
  const TK_COMMIT := 10
  const TK_END := 11
  const TK_ROLLBACK := 12
  const TK_SAVEPOINT := 13
  const TK_RELEASE := 14
  const TK_TO := 15
  const TK_TABLE := 16
  const TK_CREATE := 17
  const TK_IF := 18
  const TK_NOT := 19
  const TK_EXISTS := 20
  const TK_TEMP := 21
  const TK_AS := 24
  const TK_WITHOUT := 25
  const TK_ABORT := 27
  const TK_ACTION := 28
  const TK_AFTER := 29
  const TK_ANALYZE := 30
  const TK_ASC := 31
  const TK_ATTACH := 32
  const TK_BEFORE := 33
  const TK_BY := 34
  const TK_CASCADE := 35
  const TK_CAST := 36
  const TK_CONFLICT := 37
  const TK_DATABASE := 38
  const TK_DESC := 39
  const TK_DETACH := 40
  const TK_EACH := 41
  const TK_FAIL := 42
  const TK_OR := 43
  const TK_AND := 44
  const TK_IS := 45
  const TK_MATCH := 46
  const TK_LIKE_KW := 47
  const TK_BETWEEN := 48
  const TK_IN := 49
  const TK_ISNULL := 50
  const TK_NOTNULL := 51
  const TK_ESCAPE := 58
  const TK_ID := 59
  const TK_COLUMNKW := 60
  const TK_DO := 61
  const TK_FOR := 62
  const TK_IGNORE := 63
  const TK_INITIALLY := 64
  const TK_INSTEAD := 65
  const TK_NO := 66
  const TK_KEY := 67
  const TK_OF := 68
  const TK_OFFSET := 69
  const TK_PRAGMA := 70
  const TK_RAISE := 71
  const TK_RECURSIVE := 72
  const TK_REPLACE := 73
  const TK_RESTRICT := 74
  const TK_ROW := 75
  const TK_ROWS := 76
  const TK_TRIGGER := 77
  const TK_VACUUM := 78
  const TK_VIEW := 79
  const TK_VIRTUAL := 80
  const TK_WITH := 81
  const TK_CURRENT := 82
  const TK_FOLLOWING := 83
  const TK_PARTITION := 84
  const TK_PRECEDING := 85
  const TK_RANGE := 86
  const TK_UNBOUNDED := 87
  const TK_REINDEX := 88
  const TK_RENAME := 89
  const TK_CTIME_KW := 90
  const TK_COLLATE := 102
  const TK_ON := 104
  const TK_INDEXED := 105
  const TK_JOIN_KW := 107
  const TK_CONSTRAINT := 108
  const TK_DEFAULT := 109
  const TK_NULL := 110
  const TK_PRIMARY := 111
  const TK_UNIQUE := 112
  const TK_CHECK := 113
  const TK_REFERENCES := 114
  const TK_AUTOINCR := 115
  const TK_INSERT := 116
  const TK_DELETE := 117
  const TK_UPDATE := 118
  const TK_SET := 119
  const TK_DEFERRABLE := 120
  const TK_FOREIGN := 121
  const TK_DROP := 122
  const TK_UNION := 123
  const TK_ALL := 124
  const TK_EXCEPT := 125
  const TK_INTERSECT := 126
  const TK_SELECT := 127
  const TK_VALUES := 128
  const TK_DISTINCT := 129
  const TK_FROM := 131
  const TK_JOIN := 132
  const TK_USING := 133
  const TK_ORDER := 134
  const TK_GROUP := 135
  const TK_HAVING := 136
  const TK_LIMIT := 137
  const TK_WHERE := 138
  const TK_INTO := 139
  const TK_NOTHING := 140
  const TK_CASE := 145
  const TK_WHEN := 146
  const TK_THEN := 147
  const TK_ELSE := 148
  const TK_INDEX := 149
  const TK_ALTER := 150
  const TK_ADD := 151
  const TK_WINDOW := 152
  const TK_OVER := 153
  const TK_FILTER := 154
}

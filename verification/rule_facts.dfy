/**
  What the pattern matchers accept: each rule captures the table from a
  statement written in the shape the tool expects, and a `USE` directive is
  never also a counted statement.  A statement is first cut into its
  literal pieces and the characters of each piece are read off; the
  matchers are then followed over those characters.
 */
module RuleFacts {
  import opened Wrappers
  import opened Text
  import opened Curd
  import opened Rules

  // The characters of the literal pieces statements are made of.  Each
  // piece gets its own lemma, which reads off only the characters and
  // keywords the matchers look at, so that a round-trip proof sees a few
  // plain facts about the line instead of the whole literal.

  lemma UseHead(s: string)
    requires 5 <= |s| && s[0..5] == "USE `"
    ensures KeywordAt(s, 0, "USE") && s[3] == ' ' && s[4] == '`'
  {
    KeywordInPiece(s, 0, "USE `", 0, "USE");
    CharInPiece(s, 0, "USE `", 3);
    CharInPiece(s, 0, "USE `", 4);
  }

  lemma WhereHead(s: string, p: nat)
    requires p + 7 <= |s| && s[p..p + 7] == " WHERE "
    ensures s[p] == ' ' && s[p + 1] == 'W' && KeywordAt(s, p + 1, "WHERE") && s[p + 6] == ' '
  {
    CharInPiece(s, p, " WHERE ", 0);
    CharInPiece(s, p, " WHERE ", 1);
    CharInPiece(s, p, " WHERE ", 6);
    KeywordInPiece(s, p, " WHERE ", 1, "WHERE");
  }

  lemma QuoteWhereHead(s: string, c: nat)
    requires c + 8 <= |s| && s[c..c + 8] == "` WHERE "
    ensures s[c] == '`' && s[c + 1] == ' ' && s[c + 2] == 'W' && KeywordAt(s, c + 2, "WHERE") && s[c + 7] == ' '
  {
    CharInPiece(s, c, "` WHERE ", 0);
    CharInPiece(s, c, "` WHERE ", 1);
    CharInPiece(s, c, "` WHERE ", 2);
    CharInPiece(s, c, "` WHERE ", 7);
    KeywordInPiece(s, c, "` WHERE ", 2, "WHERE");
  }

  lemma InsertHead(s: string)
    requires 13 <= |s| && s[0..13] == "INSERT INTO `"
    ensures KeywordAt(s, 0, "INSERT") && s[6] == ' ' && s[7] == 'I'
    ensures KeywordAt(s, 7, "INTO") && s[11] == ' ' && s[12] == '`'
  {
    KeywordInPiece(s, 0, "INSERT INTO `", 0, "INSERT");
    KeywordInPiece(s, 0, "INSERT INTO `", 7, "INTO");
    CharInPiece(s, 0, "INSERT INTO `", 6);
    CharInPiece(s, 0, "INSERT INTO `", 7);
    CharInPiece(s, 0, "INSERT INTO `", 11);
    CharInPiece(s, 0, "INSERT INTO `", 12);
  }

  lemma ColumnsHead(s: string, c: nat)
    requires c + 3 <= |s| && s[c..c + 3] == "` ("
    ensures s[c] == '`' && s[c + 1] == ' ' && s[c + 2] == '('
  {
    CharInPiece(s, c, "` (", 0);
    CharInPiece(s, c, "` (", 1);
    CharInPiece(s, c, "` (", 2);
  }

  lemma ValuesHead(s: string, j: nat)
    requires j + 10 <= |s| && s[j..j + 10] == ") VALUES ("
    ensures s[j] == ')' && s[j + 1] == ' ' && s[j + 2] == 'V' && KeywordAt(s, j + 2, "VALUES")
    ensures s[j + 8] == ' ' && s[j + 9] == '('
  {
    CharInPiece(s, j, ") VALUES (", 0);
    CharInPiece(s, j, ") VALUES (", 1);
    CharInPiece(s, j, ") VALUES (", 2);
    CharInPiece(s, j, ") VALUES (", 8);
    CharInPiece(s, j, ") VALUES (", 9);
    KeywordInPiece(s, j, ") VALUES (", 2, "VALUES");
  }

  lemma UpdateHead(s: string)
    requires 8 <= |s| && s[0..8] == "UPDATE `"
    ensures KeywordAt(s, 0, "UPDATE") && s[6] == ' ' && s[7] == '`'
  {
    KeywordInPiece(s, 0, "UPDATE `", 0, "UPDATE");
    CharInPiece(s, 0, "UPDATE `", 6);
    CharInPiece(s, 0, "UPDATE `", 7);
  }

  lemma SetHead(s: string, c: nat)
    requires c + 6 <= |s| && s[c..c + 6] == "` SET "
    ensures s[c] == '`' && s[c + 1] == ' ' && s[c + 2] == 'S' && KeywordAt(s, c + 2, "SET") && s[c + 5] == ' '
  {
    CharInPiece(s, c, "` SET ", 0);
    CharInPiece(s, c, "` SET ", 1);
    CharInPiece(s, c, "` SET ", 2);
    CharInPiece(s, c, "` SET ", 5);
    KeywordInPiece(s, c, "` SET ", 2, "SET");
  }

  lemma DeleteHead(s: string)
    requires 13 <= |s| && s[0..13] == "DELETE FROM `"
    ensures KeywordAt(s, 0, "DELETE") && s[6] == ' ' && s[7] == 'F'
    ensures KeywordAt(s, 7, "FROM") && s[11] == ' ' && s[12] == '`'
  {
    KeywordInPiece(s, 0, "DELETE FROM `", 0, "DELETE");
    KeywordInPiece(s, 0, "DELETE FROM `", 7, "FROM");
    CharInPiece(s, 0, "DELETE FROM `", 6);
    CharInPiece(s, 0, "DELETE FROM `", 7);
    CharInPiece(s, 0, "DELETE FROM `", 11);
    CharInPiece(s, 0, "DELETE FROM `", 12);
  }

  lemma SelectHead(s: string)
    requires 7 <= |s| && s[0..7] == "SELECT "
    ensures KeywordAt(s, 0, "SELECT") && s[6] == ' '
  {
    KeywordInPiece(s, 0, "SELECT ", 0, "SELECT");
    CharInPiece(s, 0, "SELECT ", 6);
  }

  lemma FromHead(s: string, p: nat)
    requires p + 7 <= |s| && s[p..p + 7] == " FROM `"
    ensures s[p] == ' ' && s[p + 1] == 'F' && KeywordAt(s, p + 1, "FROM") && s[p + 5] == ' ' && s[p + 6] == '`'
    ensures forall i | p <= i < p + 6 :: s[i] != '`'
  {
    CharInPiece(s, p, " FROM `", 0);
    CharInPiece(s, p, " FROM `", 1);
    CharInPiece(s, p, " FROM `", 5);
    CharInPiece(s, p, " FROM `", 6);
    KeywordInPiece(s, p, " FROM `", 1, "FROM");
    forall i | p <= i < p + 6
      ensures s[i] != '`'
    {
      CharInPiece(s, p, " FROM `", i - p);
    }
  }

  /** A directive `USE `db`` followed by anything selects `db`. */
  lemma UseRoundTrip(db: string, rest: string)
    requires IsWord(db)
    ensures UseDatabase("USE `" + db + "`" + rest) == Some(db)
  {
    var s := "USE `" + db + "`" + rest;
    var c := 5 + |db|;
    assert s[0..] == s;
    SplitSuffix(s, 0, "USE `" + db + "`", rest);
    SplitSlice(s, 0, c + 1, "USE `" + db, "`");
    SplitSlice(s, 0, c, "USE `", db);
    UseHead(s);
    CharInPiece(s, c, "`", 0);
    SkipSpaceTo(s, 3, 4);
    QuotedRoundTrip(s, 4, db);
  }

  /** The line is `^USE\s+`(\w+)`` with the whitespace run ending at `a` and
      the closing backtick at `c`. */
  predicate UseDirectiveAt(line: string, a: nat, c: nat) {
    && 3 < a && a + 1 < c < |line|
    && KeywordAt(line, 0, "USE") && AllSpace(line, 3, a)
    && line[a] == '`' && AllWord(line, a + 1, c) && line[c] == '`'
  }

  /** The `USE` matcher selects a database exactly when the line begins with
      `USE` in any casing, whitespace, and a backticked word, and the database
      is that word. */
  lemma UseDatabaseMatches(line: string)
    ensures UseDatabase(line).Some? <==> exists a: nat, c: nat :: UseDirectiveAt(line, a, c)
    ensures forall a: nat, c: nat | UseDirectiveAt(line, a, c) :: UseDatabase(line) == Some(line[a + 1..c])
  {
    if UseDatabase(line).Some? {
      var a := SkipSpace(line, 3);
      var c := QuotedWordEnd(line, a).value;
      assert SkipWord(line, a + 1) == c;
      assert UseDirectiveAt(line, a, c);
    }
    forall a: nat, c: nat | UseDirectiveAt(line, a, c)
      ensures UseDatabase(line) == Some(line[a + 1..c])
    {
      SkipSpaceTo(line, 3, a);
      SkipWordTo(line, a + 1, c);
    }
  }

  /** A directive line and a counted statement never coincide, so the
      database switch and the counters are never touched by the same line. */
  lemma UseIsNotCurd(line: string)
    requires UseDatabase(line).Some?
    ensures CurdStatement(line).None?
  {
    var a := SkipSpace(line, 3);
    assert a > 3 && IsSpace(line[3]);
    forall k: Kind
      ensures !KeywordAt(line, 0, Name(k))
    {
      assert !MatchesLetter(line[3], Name(k)[3]);
    }
  }

  /** `` `t` `` at `p` is read back as the table `t`. */
  lemma QuotedRoundTrip(s: string, p: nat, t: string)
    requires IsWord(t) && p + |t| + 1 < |s|
    requires s[p] == '`' && s[p + 1..p + 1 + |t|] == t && s[p + 1 + |t|] == '`'
    ensures QuotedWordEnd(s, p) == Some(p + 1 + |t|)
  {
    var c := p + 1 + |t|;
    assert AllWord(s, p + 1, c) by {
      forall k | p + 1 <= k < c ensures IsWordChar(s[k]) {
        assert s[k] == t[k - (p + 1)];
      }
    }
    SkipWordTo(s, p + 1, c);
  }

  /** ` WHERE cond` at `p`, up to the end of the line, satisfies `\s+WHERE\s+(.+?)$`. */
  lemma WhereRoundTrip(s: string, p: nat, cond: string)
    requires IsLineText(cond) && p + 7 <= |s|
    requires s[p] == ' ' && s[p + 1] == 'W' && KeywordAt(s, p + 1, "WHERE") && s[p + 6] == ' '
    requires s[p + 7..] == cond
    ensures WhereClause(s, p)
  {
    SkipSpaceTo(s, p, p + 1);
    assert NoNewline(s, p + 7, |s|) by {
      forall k | p + 7 <= k < |s| ensures s[k] != '\n' {
        assert s[k] == s[p + 7..][k - (p + 7)];
      }
    }
    assert AllSpace(s, p + 6, p + 7) && AtEnd(s, |s|);
  }

  /** `FROM `t` WHERE cond` at `x` is read as a FROM clause naming `t`. */
  lemma FromRoundTrip(s: string, x: nat, t: string, cond: string)
    requires IsWord(t) && IsLineText(cond) && x + 14 + |t| <= |s|
    requires KeywordAt(s, x, "FROM") && s[x + 4] == ' ' && s[x + 5] == '`' && s[x + 6..x + 6 + |t|] == t
    requires s[x + 6 + |t|] == '`' && s[x + 7 + |t|] == ' ' && s[x + 8 + |t|] == 'W'
    requires KeywordAt(s, x + 8 + |t|, "WHERE") && s[x + 13 + |t|] == ' ' && s[x + 14 + |t|..] == cond
    ensures FromClause(s, x) == Some(t)
  {
    SkipSpaceTo(s, x + 4, x + 5);
    QuotedRoundTrip(s, x + 5, t);
    WhereRoundTrip(s, x + 7 + |t|, cond);
  }

  /** ` VALUES (vals)` at `p` satisfies `\s*VALUES\s*\((.+?)\)`. */
  lemma ValuesRoundTrip(s: string, p: nat, vals: string)
    requires IsLineText(vals) && p + 10 + |vals| <= |s|
    requires s[p] == ' ' && s[p + 1] == 'V' && KeywordAt(s, p + 1, "VALUES") && s[p + 7] == ' ' && s[p + 8] == '('
    requires s[p + 9..p + 9 + |vals|] == vals && s[p + 9 + |vals|] == ')'
    ensures ValuesClause(s, p)
  {
    var k := p + 9 + |vals|;
    SkipSpaceTo(s, p, p + 1);
    SkipSpaceTo(s, p + 7, p + 8);
    LineTextInPiece(s, p + 9, vals);
    assert s[k] == ')' && NoNewline(s, p + 9, k);
  }

  /** ` (cols)` at `p`, closed at `j` and followed by a VALUES clause,
      satisfies `\s*\((.+?)\)\s*VALUES\s*\((.+?)\)`. */
  lemma ColumnsRoundTrip(s: string, p: nat, j: nat, cols: string)
    requires IsLineText(cols) && j == p + 2 + |cols| && j < |s|
    requires s[p] == ' ' && s[p + 1] == '(' && s[p + 2..j] == cols && s[j] == ')'
    requires ValuesClause(s, j + 1)
    ensures ColumnsThenValues(s, p)
  {
    SkipSpaceTo(s, p, p + 1);
    LineTextInPiece(s, p + 2, cols);
    assert p + 2 < j && NoNewline(s, p + 2, j);
  }

  /** The pieces of `INSERT INTO `t` (cols) VALUES (vals)` at the start of `s`. */
  predicate InsertShape(s: string, t: string, cols: string, vals: string) {
    var c := 13 + |t|;
    var j := c + 3 + |cols|;
    var e := j + 10 + |vals|;
    && e < |s|
    && s[0..13] == "INSERT INTO `" && s[13..c] == t && s[c..c + 3] == "` ("
    && s[c + 3..j] == cols && s[j..j + 10] == ") VALUES (" && s[j + 10..e] == vals && s[e] == ')'
  }

  lemma InsertSplit(t: string, cols: string, vals: string, rest: string)
    ensures InsertShape("INSERT INTO `" + t + "` (" + cols + ") VALUES (" + vals + ")" + rest, t, cols, vals)
  {
    var s := "INSERT INTO `" + t + "` (" + cols + ") VALUES (" + vals + ")" + rest;
    var c := 13 + |t|;
    var j := c + 3 + |cols|;
    var e := j + 10 + |vals|;
    assert s[0..] == s;
    SplitSuffix(s, 0, "INSERT INTO `" + t + "` (" + cols + ") VALUES (" + vals + ")", rest);
    SplitSlice(s, 0, e + 1, "INSERT INTO `" + t + "` (" + cols + ") VALUES (" + vals, ")");
    SplitSlice(s, 0, e, "INSERT INTO `" + t + "` (" + cols + ") VALUES (", vals);
    SplitSlice(s, 0, j + 10, "INSERT INTO `" + t + "` (" + cols, ") VALUES (");
    SplitSlice(s, 0, j, "INSERT INTO `" + t + "` (", cols);
    SplitSlice(s, 0, c + 3, "INSERT INTO `" + t, "` (");
    SplitSlice(s, 0, c, "INSERT INTO `", t);
    CharInPiece(s, e, ")", 0);
  }

  /** The INSERT rule, followed over the parts it matches. */
  lemma InsertTableFrom(s: string, c: nat)
    requires 12 < c < |s| && KeywordAt(s, 0, "INSERT") && SkipSpace(s, 6) == 7
    requires KeywordAt(s, 7, "INTO") && SkipSpace(s, 11) == 12
    requires QuotedWordEnd(s, 12) == Some(c) && ColumnsThenValues(s, c + 1)
    ensures InsertTable(s) == Some(s[13..c])
  {
  }

  lemma InsertKeywords(s: string, t: string, cols: string, vals: string)
    requires InsertShape(s, t, cols, vals)
    ensures KeywordAt(s, 0, "INSERT") && SkipSpace(s, 6) == 7 && KeywordAt(s, 7, "INTO") && SkipSpace(s, 11) == 12
  {
    InsertHead(s);
    SkipSpaceTo(s, 6, 7);
    SkipSpaceTo(s, 11, 12);
  }

  lemma InsertQuoted(s: string, t: string, cols: string, vals: string)
    requires IsWord(t) && InsertShape(s, t, cols, vals)
    ensures QuotedWordEnd(s, 12) == Some(13 + |t|) && s[13..13 + |t|] == t
  {
    InsertHead(s);
    ColumnsHead(s, 13 + |t|);
    QuotedRoundTrip(s, 12, t);
  }

  lemma InsertColumns(s: string, t: string, cols: string, vals: string)
    requires IsLineText(cols) && IsLineText(vals) && InsertShape(s, t, cols, vals)
    ensures ColumnsThenValues(s, 14 + |t|)
  {
    var c := 13 + |t|;
    var j := c + 3 + |cols|;
    ColumnsHead(s, c);
    ValuesHead(s, j);
    ValuesRoundTrip(s, j + 1, vals);
    ColumnsRoundTrip(s, c + 1, j, cols);
  }

  /** A line that starts with the pieces of an INSERT statement is counted
      against its table. */
  lemma InsertMatch(s: string, t: string, cols: string, vals: string)
    requires IsWord(t) && IsLineText(cols) && IsLineText(vals) && InsertShape(s, t, cols, vals)
    ensures InsertTable(s) == Some(t)
  {
    InsertKeywords(s, t, cols, vals);
    InsertQuoted(s, t, cols, vals);
    InsertColumns(s, t, cols, vals);
    InsertTableFrom(s, 13 + |t|);
  }

  /** `INSERT INTO `t` (cols) VALUES (vals)...` is counted against `t`. */
  lemma InsertRoundTrip(t: string, cols: string, vals: string, rest: string)
    requires IsWord(t) && IsLineText(cols) && IsLineText(vals)
    ensures InsertTable("INSERT INTO `" + t + "` (" + cols + ") VALUES (" + vals + ")" + rest) == Some(t)
  {
    InsertSplit(t, cols, vals, rest);
    InsertMatch("INSERT INTO `" + t + "` (" + cols + ") VALUES (" + vals + ")" + rest, t, cols, vals);
  }

  /** The pieces of `UPDATE `t` SET assigns WHERE cond`. */
  predicate UpdateShape(s: string, t: string, assigns: string, cond: string) {
    var c := 8 + |t|;
    var e := c + 6 + |assigns|;
    && e + 7 <= |s|
    && s[0..8] == "UPDATE `" && s[8..c] == t && s[c..c + 6] == "` SET "
    && s[c + 6..e] == assigns && s[e..e + 7] == " WHERE " && s[e + 7..] == cond
  }

  lemma UpdateSplit(t: string, assigns: string, cond: string)
    ensures UpdateShape("UPDATE `" + t + "` SET " + assigns + " WHERE " + cond, t, assigns, cond)
  {
    var s := "UPDATE `" + t + "` SET " + assigns + " WHERE " + cond;
    var c := 8 + |t|;
    var e := c + 6 + |assigns|;
    assert s[0..] == s;
    SplitSuffix(s, 0, "UPDATE `" + t + "` SET " + assigns + " WHERE ", cond);
    SplitSlice(s, 0, e + 7, "UPDATE `" + t + "` SET " + assigns, " WHERE ");
    SplitSlice(s, 0, e, "UPDATE `" + t + "` SET ", assigns);
    SplitSlice(s, 0, c + 6, "UPDATE `" + t, "` SET ");
    SplitSlice(s, 0, c, "UPDATE `", t);
  }

  lemma UpdateQuoted(s: string, t: string, assigns: string, cond: string)
    requires IsWord(t) && UpdateShape(s, t, assigns, cond)
    ensures KeywordAt(s, 0, "UPDATE") && SkipSpace(s, 6) == 7
    ensures QuotedWordEnd(s, 7) == Some(8 + |t|) && s[8..8 + |t|] == t
  {
    UpdateHead(s);
    SetHead(s, 8 + |t|);
    SkipSpaceTo(s, 6, 7);
    QuotedRoundTrip(s, 7, t);
  }

  lemma UpdateSet(s: string, t: string, assigns: string, cond: string)
    requires IsLineText(assigns) && IsLineText(cond) && UpdateShape(s, t, assigns, cond)
    ensures SkipSpace(s, 9 + |t|) == 10 + |t| && KeywordAt(s, 10 + |t|, "SET")
    ensures SpacedTextThenWhere(s, 13 + |t|)
  {
    var c := 8 + |t|;
    var d := c + 6;
    var e := d + |assigns|;
    SetHead(s, c);
    WhereHead(s, e);
    SkipSpaceTo(s, c + 1, c + 2);
    LineTextInPiece(s, d, assigns);
    WhereRoundTrip(s, e, cond);
    assert AllSpace(s, c + 5, d) && NoNewline(s, d, e) && WhereClause(s, e);
  }

  /** The UPDATE rule, followed over the parts it matches. */
  lemma UpdateTableFrom(s: string, c: nat)
    requires 7 < c < |s| && KeywordAt(s, 0, "UPDATE") && SkipSpace(s, 6) == 7 && QuotedWordEnd(s, 7) == Some(c)
    requires SkipSpace(s, c + 1) == c + 2 && KeywordAt(s, c + 2, "SET") && SpacedTextThenWhere(s, c + 5)
    ensures UpdateTable(s) == Some(s[8..c])
  {
  }

  /** A line made of the pieces of an UPDATE statement is counted against its
      table. */
  lemma UpdateMatch(s: string, t: string, assigns: string, cond: string)
    requires IsWord(t) && IsLineText(assigns) && IsLineText(cond) && UpdateShape(s, t, assigns, cond)
    ensures UpdateTable(s) == Some(t)
  {
    UpdateQuoted(s, t, assigns, cond);
    UpdateSet(s, t, assigns, cond);
    UpdateTableFrom(s, 8 + |t|);
  }

  /** `UPDATE `t` SET assigns WHERE cond` is counted against `t`. */
  lemma UpdateRoundTrip(t: string, assigns: string, cond: string)
    requires IsWord(t) && IsLineText(assigns) && IsLineText(cond)
    ensures UpdateTable("UPDATE `" + t + "` SET " + assigns + " WHERE " + cond) == Some(t)
  {
    UpdateSplit(t, assigns, cond);
    UpdateMatch("UPDATE `" + t + "` SET " + assigns + " WHERE " + cond, t, assigns, cond);
  }

  /** The pieces of `DELETE FROM `t` WHERE cond`. */
  predicate DeleteShape(s: string, t: string, cond: string) {
    var c := 13 + |t|;
    && c + 8 <= |s|
    && s[0..13] == "DELETE FROM `" && s[13..c] == t && s[c..c + 8] == "` WHERE " && s[c + 8..] == cond
  }

  lemma DeleteSplit(t: string, cond: string)
    ensures DeleteShape("DELETE FROM `" + t + "` WHERE " + cond, t, cond)
  {
    var s := "DELETE FROM `" + t + "` WHERE " + cond;
    var c := 13 + |t|;
    assert s[0..] == s;
    SplitSuffix(s, 0, "DELETE FROM `" + t + "` WHERE ", cond);
    SplitSlice(s, 0, c + 8, "DELETE FROM `" + t, "` WHERE ");
    SplitSlice(s, 0, c, "DELETE FROM `", t);
  }

  /** `DELETE FROM `t` WHERE cond` is counted against `t`. */
  lemma DeleteRoundTrip(t: string, cond: string)
    requires IsWord(t) && IsLineText(cond)
    ensures DeleteTable("DELETE FROM `" + t + "` WHERE " + cond) == Some(t)
  {
    var s := "DELETE FROM `" + t + "` WHERE " + cond;
    DeleteSplit(t, cond);
    DeleteHead(s);
    QuoteWhereHead(s, 13 + |t|);
    SkipSpaceTo(s, 6, 7);
    FromRoundTrip(s, 7, t, cond);
  }

  /** A FROM clause that starts before the first backtick at `b0` can only
      take its table from the identifier quoted at `b0`. */
  lemma FromClauseAtBacktick(s: string, x: nat, b0: nat)
    requires x + 4 <= b0 < |s| && s[b0] == '`'
    requires forall i | x + 4 <= i < b0 :: s[i] != '`'
    ensures FromClause(s, x).Some? ==> SkipSpace(s, x + 4) == b0
  {
    if FromClause(s, x).Some? {
      var b := SkipSpace(s, x + 4);
      assert s[b] == '`';
    }
  }

  /** The search for the end of SELECT's lazy group reaches the end `stop` of
      the column list and finds the FROM clause there, provided every FROM
      clause it could meet on the way names the same table. */
  lemma {:induction false} FirstFromReaches(s: string, e: nat, stop: nat, t: string)
    requires 0 < e <= stop && stop + 1 < |s|
    requires NoNewline(s, e - 1, stop)
    requires IsSpace(s[stop]) && !IsSpace(s[stop + 1])
    requires FromClause(s, stop + 1) == Some(t)
    requires forall x | e <= x <= stop + 1 :: FromClause(s, x).Some? ==> FromClause(s, x) == Some(t)
    ensures FirstFrom(s, e) == Some(t)
    decreases stop - e
  {
    var x := SkipSpace(s, e);
    assert x <= stop + 1;
    if e == stop {
      SkipSpaceTo(s, stop, stop + 1);
    } else if !(x > e && FromClause(s, x).Some?) {
      FirstFromReaches(s, e + 1, stop, t);
    }
  }

  /** Within a SELECT line whose column list holds no backtick, every FROM
      clause that starts no later than the real one names the quoted table. */
  lemma FromInSelect(s: string, cols: string, t: string)
    requires IsWord(t) && forall k | 0 <= k < |cols| :: cols[k] != '`'
    requires 14 + |cols| + |t| < |s|
    requires s[7..7 + |cols|] == cols && forall i | 7 + |cols| <= i < 13 + |cols| :: s[i] != '`'
    requires s[13 + |cols|] == '`' && s[14 + |cols|..14 + |cols| + |t|] == t && s[14 + |cols| + |t|] == '`'
    ensures forall x | 8 <= x <= 8 + |cols| :: FromClause(s, x).Some? ==> FromClause(s, x) == Some(t)
  {
    var b0 := 13 + |cols|;
    QuotedRoundTrip(s, b0, t);
    forall x | 8 <= x <= 8 + |cols|
      ensures FromClause(s, x).Some? ==> FromClause(s, x) == Some(t)
    {
      forall i | x + 4 <= i < 7 + |cols|
        ensures s[i] != '`'
      {
        CharInPiece(s, 7, cols, i - 7);
      }
      FromClauseAtBacktick(s, x, b0);
    }
  }

  /** The pieces of `SELECT cols FROM `t` WHERE cond`. */
  predicate SelectShape(s: string, cols: string, t: string, cond: string) {
    var stop := 7 + |cols|;
    var c := stop + 7 + |t|;
    && c + 8 <= |s|
    && s[0..7] == "SELECT " && s[7..stop] == cols && s[stop..stop + 7] == " FROM `"
    && s[stop + 7..c] == t && s[c..c + 8] == "` WHERE " && s[c + 8..] == cond
  }

  lemma SelectSplit(cols: string, t: string, cond: string)
    ensures SelectShape("SELECT " + cols + " FROM `" + t + "` WHERE " + cond, cols, t, cond)
  {
    var s := "SELECT " + cols + " FROM `" + t + "` WHERE " + cond;
    var stop := 7 + |cols|;
    var c := stop + 7 + |t|;
    assert s[0..] == s;
    SplitSuffix(s, 0, "SELECT " + cols + " FROM `" + t + "` WHERE ", cond);
    SplitSlice(s, 0, c + 8, "SELECT " + cols + " FROM `" + t, "` WHERE ");
    SplitSlice(s, 0, c, "SELECT " + cols + " FROM `", t);
    SplitSlice(s, 0, stop + 7, "SELECT " + cols, " FROM `");
    SplitSlice(s, 0, stop, "SELECT ", cols);
  }

  lemma SelectKeyword(s: string, cols: string, t: string, cond: string)
    requires |cols| > 0 && !IsSpace(cols[0]) && SelectShape(s, cols, t, cond)
    ensures KeywordAt(s, 0, "SELECT") && SkipSpace(s, 6) == 7
  {
    SelectHead(s);
    CharInPiece(s, 7, cols, 0);
    SkipSpaceTo(s, 6, 7);
  }

  lemma SelectFrom(s: string, cols: string, t: string, cond: string)
    requires IsWord(t) && IsLineText(cond) && SelectShape(s, cols, t, cond)
    ensures FromClause(s, 8 + |cols|) == Some(t) && IsSpace(s[7 + |cols|]) && !IsSpace(s[8 + |cols|])
  {
    var stop := 7 + |cols|;
    FromHead(s, stop);
    QuoteWhereHead(s, stop + 7 + |t|);
    FromRoundTrip(s, stop + 1, t, cond);
  }

  lemma SelectNoOtherFrom(s: string, cols: string, t: string, cond: string)
    requires IsWord(t) && (forall k | 0 <= k < |cols| :: cols[k] != '`') && SelectShape(s, cols, t, cond)
    ensures forall x | 8 <= x <= 8 + |cols| :: FromClause(s, x).Some? ==> FromClause(s, x) == Some(t)
  {
    FromHead(s, 7 + |cols|);
    FromInSelect(s, cols, t);
  }

  lemma SelectColumns(s: string, cols: string, t: string, cond: string)
    requires IsLineText(cols) && SelectShape(s, cols, t, cond)
    ensures NoNewline(s, 7, 7 + |cols|)
  {
    LineTextInPiece(s, 7, cols);
  }

  /** A line made of the pieces of a SELECT statement, with a column list
      that holds no backtick, is counted against its table: the lazy group
      stops at the FROM that precedes the quoted table. */
  lemma SelectMatch(s: string, cols: string, t: string, cond: string)
    requires IsWord(t) && IsLineText(cond) && IsLineText(cols) && !IsSpace(cols[0])
    requires forall k | 0 <= k < |cols| :: cols[k] != '`'
    requires SelectShape(s, cols, t, cond)
    ensures SelectTable(s) == Some(t)
  {
    SelectKeyword(s, cols, t, cond);
    SelectFrom(s, cols, t, cond);
    SelectNoOtherFrom(s, cols, t, cond);
    SelectColumns(s, cols, t, cond);
    FirstFromReaches(s, 8, 7 + |cols|, t);
    SelectTableFrom(s);
  }

  /** The SELECT rule, after its keyword and a single space, is decided by
      the lazy group's search whenever that search succeeds. */
  lemma SelectTableFrom(s: string)
    requires 7 < |s| && KeywordAt(s, 0, "SELECT") && SkipSpace(s, 6) == 7 && FirstFrom(s, 8).Some?
    ensures SelectTable(s) == FirstFrom(s, 8)
  {
  }

  /** `SELECT cols FROM `t` WHERE cond`, with a column list that holds no
      backtick, is counted against `t`. */
  lemma SelectRoundTrip(cols: string, t: string, cond: string)
    requires IsWord(t) && IsLineText(cond) && IsLineText(cols) && !IsSpace(cols[0])
    requires forall k | 0 <= k < |cols| :: cols[k] != '`'
    ensures SelectTable("SELECT " + cols + " FROM `" + t + "` WHERE " + cond) == Some(t)
  {
    SelectSplit(cols, t, cond);
    SelectMatch("SELECT " + cols + " FROM `" + t + "` WHERE " + cond, cols, t, cond);
  }
}

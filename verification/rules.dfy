/**
  The regular expressions of AnalysisBinlogTool.py, each written out as a
  dedicated matcher over the line (all are applied with `re.match` and
  `re.IGNORECASE`, so they are anchored at the start and not at the end).
  Where a pattern holds a lazy group `(.+?)` whose extent does not affect the
  captured table name, the matcher only asks whether SOME extent lets the
  rest of the pattern match, as a backtracking engine does.
 */
module Rules {
  import opened Wrappers
  import opened Text
  import opened Curd

  /** `` `(\w+)` `` at position `p`: the position of the closing backtick. */
  function QuotedWordEnd(s: string, p: nat): (r: Option<nat>)
    ensures r.Some? ==> p + 1 < r.value < |s| && s[p] == '`' && s[r.value] == '`'
    ensures r.Some? ==> IsWord(s[p + 1..r.value])
  {
    if p < |s| && s[p] == '`' then
      var c := SkipWord(s, p + 1);
      if p + 1 < c < |s| && s[c] == '`' then
        Some(c)
      else None
    else None
  }

  /** `dbname_from_use_statement`: `^USE\s+`(\w+)``. */
  function UseDatabase(line: string): (r: Option<string>)
    ensures r.Some? ==> IsWord(r.value) && KeywordAt(line, 0, "USE")
  {
    if !KeywordAt(line, 0, "USE") then None
    else
      var a := SkipSpace(line, 3);
      if a == 3 then None
      else match QuotedWordEnd(line, a)
        case None => None
        case Some(c) => Some(line[a + 1..c])
  }

  /** `curd_statement`: `^INSERT|^UPDATE|^SELECT|^DELETE`, returning the
      matched text as the line spells it. */
  function CurdStatement(line: string): (r: Option<string>)
    ensures r.Some? ==> |line| >= 6 && r.value == line[..6]
    ensures r.Some? <==> exists k: Kind :: KeywordAt(line, 0, Name(k))
  {
    assert Name(Insert) == "INSERT" && Name(Update) == "UPDATE";
    assert Name(Select) == "SELECT" && Name(Delete) == "DELETE";
    if || KeywordAt(line, 0, "INSERT") || KeywordAt(line, 0, "UPDATE")
       || KeywordAt(line, 0, "SELECT") || KeywordAt(line, 0, "DELETE")
    then Some(line[..6])
    else None
  }

  /** `\s+(.+?)$` at `p`. */
  predicate SpacedTextToEnd(s: string, p: nat)
    requires p <= |s|
  {
    exists g, h | p < g < h <= |s| :: AllSpace(s, p, g) && NoNewline(s, g, h) && AtEnd(s, h)
  }

  /** `\s+WHERE\s+(.+?)$` at `p`. */
  predicate WhereClause(s: string, p: nat)
    requires p <= |s|
  {
    var f := SkipSpace(s, p);
    f > p && KeywordAt(s, f, "WHERE") && SpacedTextToEnd(s, f + 5)
  }

  /** `FROM\s+`(?P<table_name>\w+)`\s+WHERE\s+(.+?)$` at `x`. */
  function FromClause(s: string, x: nat): (r: Option<string>)
    ensures r.Some? ==> IsWord(r.value)
  {
    if !KeywordAt(s, x, "FROM") then None
    else
      var b := SkipSpace(s, x + 4);
      if b == x + 4 then None
      else match QuotedWordEnd(s, b)
        case None => None
        case Some(c) => if WhereClause(s, c + 1) then Some(s[b + 1..c]) else None
  }

  /** `\s*VALUES\s*\((.+?)\)` at `p`. */
  predicate ValuesClause(s: string, p: nat)
    requires p <= |s|
  {
    var y := SkipSpace(s, p);
    && KeywordAt(s, y, "VALUES")
    && var z := SkipSpace(s, y + 6);
       && z < |s| && s[z] == '('
       && exists k | z + 1 < k < |s| :: s[k] == ')' && NoNewline(s, z + 1, k)
  }

  /** `\s*\((.+?)\)\s*VALUES\s*\((.+?)\)` at `p`. */
  predicate ColumnsThenValues(s: string, p: nat)
    requires p <= |s|
  {
    var d := SkipSpace(s, p);
    && d < |s| && s[d] == '('
    && exists j | d + 1 < j < |s| :: s[j] == ')' && NoNewline(s, d + 1, j) && ValuesClause(s, j + 1)
  }

  /** The INSERT rule (line 82):
      `^INSERT\s+INTO\s+`(?P<table_name>\w+)`\s*\((.+?)\)\s*VALUES\s*\((.+?)\)`. */
  function InsertTable(line: string): (r: Option<string>)
    ensures r.Some? ==> IsWord(r.value)
  {
    if !KeywordAt(line, 0, "INSERT") then None
    else
      var a := SkipSpace(line, 6);
      if a == 6 || !KeywordAt(line, a, "INTO") then None
      else
        var b := SkipSpace(line, a + 4);
        if b == a + 4 then None
        else match QuotedWordEnd(line, b)
          case None => None
          case Some(c) => if ColumnsThenValues(line, c + 1) then Some(line[b + 1..c]) else None
  }

  /** `\s+(.+?)\s+WHERE\s+(.+?)$` at `p`. */
  predicate SpacedTextThenWhere(s: string, p: nat)
    requires p <= |s|
  {
    exists q, e | p < q < e <= |s| :: AllSpace(s, p, q) && NoNewline(s, q, e) && WhereClause(s, e)
  }

  /** The UPDATE rule (line 83):
      `^UPDATE\s+`(?P<table_name>\w+)`\s+SET\s+(.+?)\s+WHERE\s+(.+?)$`. */
  function UpdateTable(line: string): (r: Option<string>)
    ensures r.Some? ==> IsWord(r.value)
  {
    if !KeywordAt(line, 0, "UPDATE") then None
    else
      var a := SkipSpace(line, 6);
      if a == 6 then None
      else match QuotedWordEnd(line, a)
        case None => None
        case Some(c) =>
          var d := SkipSpace(line, c + 1);
          if d > c + 1 && KeywordAt(line, d, "SET") && SpacedTextThenWhere(line, d + 3)
          then Some(line[a + 1..c])
          else None
  }

  /** The DELETE rule (line 85): `^DELETE\s+FROM\s+`(?P<table_name>\w+)`\s+WHERE\s+(.+?)$`. */
  function DeleteTable(line: string): (r: Option<string>)
    ensures r.Some? ==> IsWord(r.value)
  {
    if !KeywordAt(line, 0, "DELETE") then None
    else
      var a := SkipSpace(line, 6);
      if a == 6 then None else FromClause(line, a)
  }

  /** The lazy group of the SELECT rule, started after the whitespace that
      follows the keyword, is tried with end `e`, `e + 1`, ... in turn; it may
      not run over a line feed.  The first end at which
      `\s+FROM\s+`(?P<table_name>\w+)`\s+WHERE\s+(.+?)$` matches decides the table. */
  function FirstFrom(s: string, e: nat): (r: Option<string>)
    requires 0 < e
    ensures r.Some? ==> IsWord(r.value)
    decreases |s| + 1 - e
  {
    if |s| < e || s[e - 1] == '\n' then None
    else
      var x := SkipSpace(s, e);
      var t := FromClause(s, x);
      if x > e && t.Some? then t else FirstFrom(s, e + 1)
  }

  /** The SELECT rule (line 84): `^SELECT\s+(.+?)\s+FROM\s+`(?P<table_name>\w+)`\s+WHERE\s+(.+?)$`.
      The engine first lets `\s+` take the whole whitespace run (ending at `a`)
      and searches the lazy group's end.  Only when that fails does it give
      back whitespace, so that the group is one whitespace character other
      than a line feed and the FROM clause must begin right at `a`. */
  function SelectTable(line: string): (r: Option<string>)
    ensures r.Some? ==> IsWord(r.value)
  {
    if !KeywordAt(line, 0, "SELECT") then None
    else
      var a := SkipSpace(line, 6);
      if a == 6 then None
      else match FirstFrom(line, a + 1)
        case Some(t) => Some(t)
        case None =>
          if 9 <= a && exists p | 7 <= p <= a - 2 :: line[p] != '\n' then FromClause(line, a) else None
  }

  /** `re.match(curd_rule[curd_type], line, re.IGNORECASE)` and its `table_name` group. */
  function TableByRule(k: Kind, line: string): (r: Option<string>)
    ensures r.Some? ==> IsWord(r.value)
  {
    match k
    case Insert => InsertTable(line)
    case Update => UpdateTable(line)
    case Select => SelectTable(line)
    case Delete => DeleteTable(line)
  }
}

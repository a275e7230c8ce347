# Binlog CURD statistics, modelled in Dafny

AnalysisBinlogTool.py reads the text that `mysqlbinlog` exports from a MySQL
binary log and counts its INSERT, UPDATE, SELECT and DELETE statements. It
keeps one set of counts for the whole log and one for each table. Each table
is keyed `database.table` after the most recent `USE` directive. The tool
prints a summary: lines read, number of tables and the totals. It then prints
the tables sorted in descending order of (UPDATE, INSERT, DELETE, SELECT).

This project models that pipeline and proves what it promises.

- `text.dfy` (`Text`): the character classes `\s` and `\w` and
  case-insensitive keyword matching as Python's `re` applies them. It also
  holds `.` and `$`, and `str.strip()`. Case-insensitive matching covers the
  ASCII pairs plus the Unicode folds Python applies to the letters the
  patterns use: dotted and dotless I for `I`, and long s for `S`. The Kelvin
  sign folds onto `k`, and no pattern contains a `K`.
- `curd.dfy` (`Curd`): the four statement kinds and the record of four
  counters.
- `rules.dfy` (`Rules`): the `USE` matcher, the keyword classifier and the
  four structural rules. Each is a dedicated matcher that follows the
  backtracking order of the regular expression. `rule_facts.dfy`
  (`RuleFacts`) proves that each rule reads the table back from a statement
  written in the expected shape.
- `stats.dfy` (`Stats`): the run state as a value, and the effect of one line
  on it (`Step`) and of many (`RunLines`). The run state is the current
  database, the totals and the table map. The map's keys are also kept in
  first-seen order, which is a Python dict's iteration order.
  `stats_facts.dfy` (`StatsFacts`) proves the counting properties.
- `report.dfy` (`Report`): the stable descending sort of the table items.
- `guard.dfy` (`Guard`): the check that refuses a raw binary log by its
  magic number.
- `analyzer.dfy` (`Analyzer`): the script's globals as the fields of a
  `BinlogStats` object, whose methods update them in place. It also holds
  `main`'s line loop with its optional limit (`Analyze`).

Two places where the code differs from what a reader might expect:

- `curd_statement` matches the keyword case-insensitively but returns it as
  the line spells it. Only the upper-case keys are rules, so a lower-case
  `insert ...` line changes no counter. The model follows the code.
- The per-table map keeps insertion order and the sort is stable, so tables
  with equal counts appear in the order they were first seen. The model keeps
  that order explicitly.

## Model

| member | source | states |
|---|---|---|
| Text.Strip | AnalysisBinlogTool.py:41 | the stripped line is no longer than the line and neither begins nor ends with whitespace |
| Text.StripRemovesOnlySpace | AnalysisBinlogTool.py:41 | the line is some whitespace, then the stripped line, then some whitespace |
| Text.StripIdempotent | AnalysisBinlogTool.py:41 | stripping a stripped line changes nothing |
| Text.SkipSpace | AnalysisBinlogTool.py:50 | a greedy `\s` run ends at the first non-whitespace character or the end of the line |
| Text.SkipSpaceTo | AnalysisBinlogTool.py:50 | that end is the only such position: the greedy run stops exactly at the first non-whitespace character |
| Text.SkipWordTo | AnalysisBinlogTool.py:50 | a greedy `\w+` stops exactly at the first character outside `\w` |
| Curd.KindOf | AnalysisBinlogTool.py:87 | a string names a kind exactly when it equals one of the four upper-case keys, and then it names that kind |
| Curd.Bump | AnalysisBinlogTool.py:72 | incrementing one kind raises its count by one and leaves the other three unchanged |
| Rules.UseDatabase | AnalysisBinlogTool.py:49-53 | a captured database name is a `\w+` word and the line begins with `USE` in any casing; `RuleFacts.UseDatabaseMatches` states exactly which lines are selected and what they select |
| Rules.CurdStatement | AnalysisBinlogTool.py:64-68 | a keyword is found exactly when the line begins with one of the four keywords in any casing, and the result is the line's first six characters as the line spells them |
| Rules.InsertTable | AnalysisBinlogTool.py:82 | a captured table is a `\w+` word; `RuleFacts.InsertRoundTrip` states that an INSERT in the expected shape yields its table |
| Rules.UpdateTable | AnalysisBinlogTool.py:83 | a captured table is a `\w+` word; `RuleFacts.UpdateRoundTrip` states that an UPDATE in the expected shape yields its table |
| Rules.FirstFrom | AnalysisBinlogTool.py:84 | the lazy group of the SELECT rule, tried end by end, captures a `\w+` word; `RuleFacts.FirstFromReaches` states when the search reaches the real FROM clause |
| Rules.SelectTable | AnalysisBinlogTool.py:84 | a captured table is a `\w+` word; `RuleFacts.SelectRoundTrip` states that a SELECT in the expected shape yields its table |
| Rules.DeleteTable | AnalysisBinlogTool.py:85 | a captured table is a `\w+` word; `RuleFacts.DeleteRoundTrip` states that a DELETE in the expected shape yields its table |
| Rules.TableByRule | AnalysisBinlogTool.py:89 | the rule of the line's kind captures a `\w+` word; `StatsFacts.KeywordLineStep` states that a match counts the table |
| RuleFacts.UseRoundTrip | AnalysisBinlogTool.py:49-53 | the directive `USE` followed by a backticked word and anything else selects that word |
| RuleFacts.UseDatabaseMatches | AnalysisBinlogTool.py:49-53 | a database is selected exactly when the line is `USE` in any casing, one or more whitespace characters, a backtick, a `\w+` word and a backtick, with anything after; the database is then that word |
| RuleFacts.UseIsNotCurd | AnalysisBinlogTool.py:49-68 | a line that switches the database is never a counted statement |
| RuleFacts.QuotedRoundTrip | AnalysisBinlogTool.py:82-85 | a backticked word is read back as that word |
| RuleFacts.WhereRoundTrip | AnalysisBinlogTool.py:83-85 | ` WHERE ` followed by a condition to the end of the line satisfies the `\s+WHERE\s+(.+?)$` tail |
| RuleFacts.FromRoundTrip | AnalysisBinlogTool.py:84-85 | `FROM`, a backticked table and a WHERE clause yield that table |
| RuleFacts.ValuesRoundTrip | AnalysisBinlogTool.py:82 | ` VALUES (...)` satisfies the VALUES part of the INSERT rule |
| RuleFacts.ColumnsRoundTrip | AnalysisBinlogTool.py:82 | a column list followed by a VALUES list satisfies the INSERT rule's tail |
| RuleFacts.InsertRoundTrip | AnalysisBinlogTool.py:82 | `INSERT INTO` with a backticked table, columns and values, followed by anything, yields that table |
| RuleFacts.UpdateRoundTrip | AnalysisBinlogTool.py:83 | `UPDATE` with a backticked table, `SET` assignments and a WHERE clause yields that table |
| RuleFacts.SelectRoundTrip | AnalysisBinlogTool.py:84 | `SELECT` with a column list (no backtick, not starting with whitespace), `FROM` a backticked table and a WHERE clause yields that table |
| RuleFacts.DeleteRoundTrip | AnalysisBinlogTool.py:85 | `DELETE FROM` with a backticked table and a WHERE clause yields that table |
| RuleFacts.FromClauseAtBacktick | AnalysisBinlogTool.py:84 | a matching FROM clause takes its table from the first backtick after `FROM` |
| RuleFacts.FirstFromReaches | AnalysisBinlogTool.py:84 | the lazy group's search reaches the real FROM clause when every earlier candidate gives the same table |
| RuleFacts.FromInSelect | AnalysisBinlogTool.py:84 | inside a SELECT of the expected shape, every FROM clause that matches names the real table |
| Stats.QualifiedName | AnalysisBinlogTool.py:59-62 | the table itself without a database, otherwise `database.table`; `StatsFacts.QualifiedNameInjective` states that different (database, table) pairs never share a key |
| Stats.AddTotal | AnalysisBinlogTool.py:70-72 | only the total of the kind rises, by one, as `Curd.Bump` states; the database and the tables stay |
| Stats.AddTable | AnalysisBinlogTool.py:74-78 | counting a statement against a table, creating its record on first reference; `StatsFacts.AddTableEffect` states the whole effect |
| Stats.ParseCurd | AnalysisBinlogTool.py:80-92 | a known kind is counted in the totals, and against its qualified table when the rule matches; `StatsFacts.StepEffect` and `StatsFacts.KeywordLineStep` state the effect |
| Stats.Step | AnalysisBinlogTool.py:113-118 | one line: the database switch, then the count; `StatsFacts.StepEffect` states the whole effect |
| Stats.RunLines | AnalysisBinlogTool.py:111-118 | the lines are processed one after another, in order; `StatsFacts.RunAppend`, `RunTotals` and `RunConsistent` state what a run does |
| StatsFacts.ClassifiedKind | AnalysisBinlogTool.py:64-87 | classifying and then looking up the rule counts a line exactly when its first six characters are an upper-case key |
| StatsFacts.LowerCaseNotCounted | AnalysisBinlogTool.py:64-87 | a line beginning `insert` is recognised by the classifier yet leaves the whole state unchanged |
| StatsFacts.AddTableEffect | AnalysisBinlogTool.py:74-78 | the table exists afterwards; a new table starts from zero counts; only its count for the kind rises, by one; other tables are untouched; a new key is appended to the order; the sum over tables for that kind rises by one and the other sums stay |
| StatsFacts.TableSumUpdate | AnalysisBinlogTool.py:78 | replacing one table's record changes the sum over tables by the difference |
| StatsFacts.AddTableIndexed | AnalysisBinlogTool.py:76-77 | the key order stays a repetition-free listing of the map's keys |
| StatsFacts.StepEffect | AnalysisBinlogTool.py:87-118 | one line: the database changes only on a `USE` directive and then to its word; the total of a kind rises by one exactly when the line begins with that upper-case key, whether or not the rule matches; the tables change only on a rule match, once, for the line's kind, under the key qualified with the database in effect |
| StatsFacts.StepPreservesConsistent | AnalysisBinlogTool.py:87-92 | every line keeps the key order indexing the map and each kind's sum over tables at or below its total |
| StatsFacts.RunConsistent | AnalysisBinlogTool.py:111-120 | after any number of lines the sum over tables of each kind never exceeds the global total |
| StatsFacts.RunTotals | AnalysisBinlogTool.py:70-118 | the total of each kind equals the number of lines that begin with its upper-case key |
| StatsFacts.RunGrows | AnalysisBinlogTool.py:74-78 | no table is ever removed, no count decreases, and the first-seen order only grows at the end |
| StatsFacts.RunAppend | AnalysisBinlogTool.py:111-118 | processing two stretches of the log in turn is processing their concatenation |
| StatsFacts.RunWithoutUse | AnalysisBinlogTool.py:55-115 | while no `USE` directive appears the database stays, and every table counted meanwhile, new or already present, is keyed by that database and a word |
| StatsFacts.UseQualifiesLaterTables | AnalysisBinlogTool.py:59-118 | after `USE` with a backticked database, every table counted before the next directive, new or already present, is keyed `db.table`, so an unqualified key recorded earlier is never touched again |
| StatsFacts.DistinctCard | AnalysisBinlogTool.py:125 | a list without repetitions has as many elements as its set |
| StatsFacts.TableCount | AnalysisBinlogTool.py:125 | TABLE_COUNT, the size of the map, is the number of distinct keys in first-seen order |
| StatsFacts.QualifiedNameInjective | AnalysisBinlogTool.py:59-62 | different (database, table) pairs never share a key, because neither word contains a dot |
| StatsFacts.UseLineStep | AnalysisBinlogTool.py:113-115 | a `USE` directive only switches the database |
| StatsFacts.KeywordLineStep | AnalysisBinlogTool.py:87-92 | a line beginning with an upper-case key whose rule matches counts once in the totals and once against its qualified table |
| StatsFacts.InsertLineStep | AnalysisBinlogTool.py:82-92 | an INSERT of the expected shape counts one INSERT in the totals and against its table |
| StatsFacts.UpdateLineStep | AnalysisBinlogTool.py:83-92 | the same for an UPDATE |
| StatsFacts.SelectLineStep | AnalysisBinlogTool.py:84-92 | the same for a SELECT |
| StatsFacts.DeleteLineStep | AnalysisBinlogTool.py:85-92 | the same for a DELETE |
| StatsFacts.RunThree | AnalysisBinlogTool.py:111-118 | a step of the `UseInsertSelect` scenario: three lines are processed in order |
| StatsFacts.FirstInsertStep | AnalysisBinlogTool.py:74-82 | a step of the `UseInsertSelect` scenario: the first INSERT into a table creates its record with INSERT 1 |
| StatsFacts.SelectAfterInsertStep | AnalysisBinlogTool.py:74-84 | a step of the `UseInsertSelect` scenario: a following SELECT on that table raises its SELECT count to 1 |
| StatsFacts.UseInsertSelect | AnalysisBinlogTool.py:108-120 | for a log holding a `USE`, an INSERT and a SELECT on one table, the totals are INSERT 1 and SELECT 1 and the only table is `db.t` with the same counts |
| Report.Outranks | AnalysisBinlogTool.py:132 | the sort key (UPDATE, INSERT, DELETE, SELECT), compared lexicographically; `Report.OutranksOrder` states that it is a strict order |
| Report.OutranksOrder | AnalysisBinlogTool.py:132 | the sort key is a strict order: irreflexive and transitive, and its complement is transitive; records of which neither outranks the other are equal |
| Report.Insert | AnalysisBinlogTool.py:132 | inserting an entry adds exactly that entry |
| Report.InsertNonIncreasing | AnalysisBinlogTool.py:132 | inserting into a descending list keeps it descending |
| Report.Sort | AnalysisBinlogTool.py:132 | `sorted(..., reverse=True)` by that key; `SortPermutation`, `SortNonIncreasing` and `SortStable` state what it promises |
| Report.SortNonIncreasing | AnalysisBinlogTool.py:132 | the sorted report never places an entry before one that outranks it in (UPDATE, INSERT, DELETE, SELECT) |
| Report.SortPermutation | AnalysisBinlogTool.py:132 | the sorted report is a permutation of the items |
| Report.WithCountsConcat | AnalysisBinlogTool.py:132 | the tables with given counts in a concatenation are those of each part, in order |
| Report.InsertStable | AnalysisBinlogTool.py:132 | an inserted entry lands in front of every entry with equal counts |
| Report.SortStable | AnalysisBinlogTool.py:132 | tables with equal counts keep their relative order, as `sorted(..., reverse=True)` does |
| Report.Items | AnalysisBinlogTool.py:132 | item i is the i-th table in first-seen order, with its counts; every table appears, once |
| Report.ReportKeepsFirstSeenOrder | AnalysisBinlogTool.py:132 | for any counts, the tables of the report with those counts are exactly the tables with those counts, in first-seen order |
| Report.TableReport | AnalysisBinlogTool.py:132 | the items in first-seen order, sorted stably in descending order of the key; `Report.ReportListsTables` and `Report.ReportKeepsFirstSeenOrder` state it |
| Report.ReportListsTables | AnalysisBinlogTool.py:125-134 | the report has exactly TABLE_COUNT rows, every table appears with its counts, nothing else appears, and the rows are in descending order |
| Guard.HexDigit | AnalysisBinlogTool.py:46 | each nibble is rendered as a lower-case hexadecimal digit |
| Guard.Hex | AnalysisBinlogTool.py:46 | `bytes.hex()` writes two characters per byte |
| Guard.HexDigitsDetermineByte | AnalysisBinlogTool.py:46 | a byte's two digits determine the byte |
| Guard.HexInjective | AnalysisBinlogTool.py:46 | equal hexadecimal renderings come from equal bytes |
| Guard.IsBinlogFile | AnalysisBinlogTool.py:43-47 | the first four bytes, or fewer, rendered in hexadecimal and compared with `fe62696e`; `Guard.IsBinlogFileIff` states when it fires |
| Guard.IsBinlogFileIff | AnalysisBinlogTool.py:43-47 | the guard fires exactly when the data has at least four bytes and they are fe 62 69 6e; shorter data never fires it |
| Analyzer.BinlogStats.constructor | AnalysisBinlogTool.py:25-33 | no database, all totals zero, no table |
| Analyzer.BinlogStats.SetDatabaseName | AnalysisBinlogTool.py:55-57 | only the database name changes, to the given name |
| Analyzer.BinlogStats.StatTotalCurdInfo | AnalysisBinlogTool.py:70-72 | the totals become the incremented totals and nothing else changes |
| Analyzer.BinlogStats.StatTableCurdInfo | AnalysisBinlogTool.py:74-78 | the table map and key order become those of `AddTable`, whose effect `StatsFacts.AddTableEffect` states |
| Analyzer.BinlogStats.ParseCurdStatement | AnalysisBinlogTool.py:80-92 | the object's new state is the old one with the statement counted as `Stats.ParseCurd` does |
| Analyzer.BinlogStats.ProcessLine | AnalysisBinlogTool.py:113-118 | the object's new state is `Step` of the old state and the line, whose effect `StatsFacts.StepEffect` states |
| Analyzer.StripAll | AnalysisBinlogTool.py:35-41 | one stripped line per line read, in order |
| Analyzer.LinesRead | AnalysisBinlogTool.py:108-120 | with a limit of zero or less every line is read; with a positive limit, the smaller of the limit and the number of lines |
| Analyzer.Analyze | AnalysisBinlogTool.py:104-132 | a raw binary log is refused exactly when the guard fires. Otherwise BINLOG_LINE is the number of lines read, the state is that of processing exactly those stripped lines in order, TABLE_COUNT is the number of tables, the totals are the run's totals, and the table report is the stable descending sort of the tables in first-seen order |

## Left out

- File input: `open`, `readline`, UTF-8 decoding and newline handling. `Analyze` receives the lines as `readline` yields them and the file's bytes, as a sequence of `Byte` values, for the guard.
- Argument handling in `main` (lines 96-108): reading `sys.argv`, converting the limit with `int()`, the file-existence check, the usage and error messages, and `exit(1)`. The limit arrives as an integer and the refusal as the `BinaryLogRejected` result.
- Timing: `GL_START_TIME` and the `USE_TIME` field (lines 24 and 126) are wall-clock floating-point values.
- Output: `json.dumps` and `print` (lines 133-134). The model returns the summary and the ordered list of (table, counts) pairs they would render.
- Text.IsWordChar: `\w` is limited to ASCII letters, digits and the underscore. Python's `\w` on str patterns also accepts every Unicode letter and digit, so identifiers with such characters are not captured by the model.
- The `"table_name" in matches.groupdict()` test on line 90 is always true when a rule matches, so it is not modelled separately.
- Rules.InsertTable, Rules.UpdateTable, Rules.SelectTable, Rules.DeleteTable: their own contracts state only that the captured table is a `\w+` word. What each rule accepts is stated by the round-trip lemmas of `RuleFacts`, for lines written in the rule's canonical spacing.

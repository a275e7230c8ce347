/**
  The run state of AnalysisBinlogTool.py as a value — the current database
  (`GL_DATABASE_NAME`), the global totals (`GL_TOTAL_CURD_STAT`) and the
  per-table counters (`GL_TABLE_CURD_STAT`, whose keys are also kept in
  first-seen order, the iteration order of a Python dict) — and the effect of
  one line of the log on it.
 */
module Stats {
  import opened Wrappers
  import opened Text
  import opened Curd
  import opened Rules

  datatype RunState = RunState(
    database: string,
    total: Counts,
    tables: map<string, Counts>,
    order: seq<string>)

  /** The state before the first line: no database, every total zero, no table. */
  const Initial := RunState("", Zero, map[], [])

  /** `get_table_name`: qualify a table with the current database, if any. */
  function QualifiedName(db: string, table: string): string {
    if db != "" then db + "." + table else table
  }

  /** `stat_total_curd_info`. */
  function AddTotal(st: RunState, k: Kind): RunState {
    st.(total := Bump(st.total, k))
  }

  /** `stat_table_curd_info`: create the table's record with zero counts on
      first reference, then count the statement against it. */
  function AddTable(st: RunState, name: string, k: Kind): RunState {
    var counts := if name in st.tables then st.tables[name] else Zero;
    st.(tables := st.tables[name := Bump(counts, k)],
        order := if name in st.tables then st.order else st.order + [name])
  }

  /** `parse_curd_statement`: a known kind is counted globally first; the
      table is counted only when the kind's structural rule matches. */
  function ParseCurd(st: RunState, curdType: string, line: string): RunState {
    match KindOf(curdType)
    case None => st
    case Some(k) =>
      var counted := AddTotal(st, k);
      match TableByRule(k, line)
      case None => counted
      case Some(table) => AddTable(counted, QualifiedName(counted.database, table), k)
  }

  /** The body of the line loop in `main`: switch database on a `USE`
      directive, then classify the line and count it. */
  function Step(st: RunState, line: string): RunState {
    var selected := match UseDatabase(line)
      case Some(db) => st.(database := db)
      case None => st;
    match CurdStatement(line)
    case None => selected
    case Some(curdType) => ParseCurd(selected, curdType, line)
  }

  /** The state after the lines, in order. */
  function RunLines(st: RunState, lines: seq<string>): RunState
    decreases |lines|
  {
    if lines == [] then st
    else Step(RunLines(st, lines[..|lines| - 1]), lines[|lines| - 1])
  }

  /** The kind a line is counted under: its first six characters are exactly
      one of the upper-case keys. */
  function LineKind(line: string): Option<Kind> {
    if |line| >= 6 then KindOf(line[..6]) else None
  }

  /** The (kind, table) a line is counted against, if its rule matches. */
  function Hit(line: string): Option<(Kind, string)> {
    match LineKind(line)
    case None => None
    case Some(k) =>
      match TableByRule(k, line)
      case None => None
      case Some(t) => Some((k, t))
  }

  /** How many of the lines are counted under kind `k`. */
  function CountKind(lines: seq<string>, k: Kind): nat
    decreases |lines|
  {
    if lines == [] then 0
    else CountKind(lines[..|lines| - 1], k) + (if LineKind(lines[|lines| - 1]) == Some(k) then 1 else 0)
  }

  function ValueOf(tables: map<string, Counts>, name: string, k: Kind): nat {
    if name in tables then Get(tables[name], k) else 0
  }

  /** The sum over the tables, in `order`, of their counts for kind `k`. */
  function TableSum(tables: map<string, Counts>, order: seq<string>, k: Kind): nat
    decreases |order|
  {
    if order == [] then 0
    else TableSum(tables, order[..|order| - 1], k) + ValueOf(tables, order[|order| - 1], k)
  }

  predicate Distinct(order: seq<string>) {
    forall i, j | 0 <= i < j < |order| :: order[i] != order[j]
  }

  /** The order lists each key of the table map exactly once. */
  predicate Indexed(tables: map<string, Counts>, order: seq<string>) {
    && Distinct(order)
    && (forall i | 0 <= i < |order| :: order[i] in tables)
    && (forall n | n in tables :: n in order)
  }

  /** What every reachable state satisfies: the order indexes the tables,
      and for every kind the tables together hold no more statements than
      the global total. */
  ghost predicate Consistent(st: RunState) {
    && Indexed(st.tables, st.order)
    && (forall k: Kind :: TableSum(st.tables, st.order, k) <= Get(st.total, k))
  }
}

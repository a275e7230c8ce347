/**
  The tool's global state and its driver loop.  The module-level globals
  `GL_DATABASE_NAME`, `GL_TOTAL_CURD_STAT` and `GL_TABLE_CURD_STAT` become the
  fields of one `BinlogStats` object, which the functions of the script update
  in place; `main` becomes `Analyze`, which receives the file's contents
  instead of opening it and returns the report instead of printing it.
 */
module Analyzer {
  import opened Wrappers
  import opened Text
  import opened Curd
  import opened Rules
  import opened Stats
  import opened StatsFacts
  import opened Report
  import opened Guard

  class BinlogStats {
    var databaseName: string
    var totalStat: Counts
    /** The per-table counters, and their keys in the order they were added. */
    var tableStat: map<string, Counts>
    var tableOrder: seq<string>

    /** The fields, read as a run state. */
    function State(): RunState
      reads this
    {
      RunState(databaseName, totalStat, tableStat, tableOrder)
    }

    constructor ()
      ensures State() == Initial
    {
      databaseName := "";
      totalStat := Zero;
      tableStat := map[];
      tableOrder := [];
    }

    /** `set_database_name`. */
    method SetDatabaseName(name: string)
      modifies this
      ensures State() == old(State()).(database := name)
    {
      databaseName := name;
    }

    /** `stat_total_curd_info`. */
    method StatTotalCurdInfo(k: Kind)
      modifies this
      ensures State() == AddTotal(old(State()), k)
    {
      totalStat := Bump(totalStat, k);
    }

    /** `stat_table_curd_info`: a table seen for the first time gets a record
        of zeros, then its counter for `k` is incremented. */
    method StatTableCurdInfo(name: string, k: Kind)
      modifies this
      ensures State() == AddTable(old(State()), name, k)
    {
      if name !in tableStat {
        tableStat := tableStat[name := Zero];
        tableOrder := tableOrder + [name];
      }
      tableStat := tableStat[name := Bump(tableStat[name], k)];
    }

    /** `parse_curd_statement`. */
    method ParseCurdStatement(curdType: string, line: string)
      modifies this
      ensures State() == ParseCurd(old(State()), curdType, line)
    {
      var kind := KindOf(curdType);
      if kind.Some? {
        StatTotalCurdInfo(kind.value);
        var table := TableByRule(kind.value, line);
        if table.Some? {
          StatTableCurdInfo(QualifiedName(databaseName, table.value), kind.value);
        }
      }
    }

    /** The body of the line loop of `main`. */
    method ProcessLine(line: string)
      modifies this
      ensures State() == Step(old(State()), line)
    {
      var databaseName := UseDatabase(line);
      if databaseName.Some? {
        SetDatabaseName(databaseName.value);
      }
      var curdType := CurdStatement(line);
      if curdType.Some? {
        ParseCurdStatement(curdType.value, line);
      }
    }
  }

  datatype Summary = Summary(binlogLine: nat, tableCount: nat, total: Counts)

  datatype Output =
    | BinaryLogRejected
    | Counted(summary: Summary, tables: seq<Entry>)

  /** `read_file`: each line the file yields, stripped. */
  function StripAll(rawLines: seq<string>): (r: seq<string>)
    ensures |r| == |rawLines|
    ensures forall i | 0 <= i < |r| :: r[i] == Strip(rawLines[i])
  {
    seq(|rawLines|, i requires 0 <= i < |rawLines| => Strip(rawLines[i]))
  }

  /** How many lines the loop reads: all of them, or `limit` when that is
      positive and smaller. */
  function LinesRead(n: nat, limit: int): (r: nat)
    ensures r <= n
    ensures limit <= 0 ==> r == n
    ensures limit > 0 ==> r == if limit < n then limit else n
  {
    if limit > 0 && limit < n then limit else n
  }

  /** Reading one more line is one more step of the run. */
  lemma RunNextLine(rawLines: seq<string>, i: nat)
    requires i < |rawLines|
    ensures RunLines(Initial, StripAll(rawLines[..i + 1]))
         == Step(RunLines(Initial, StripAll(rawLines[..i])), Strip(rawLines[i]))
  {
    var lines := StripAll(rawLines[..i + 1]);
    assert lines[..i] == StripAll(rawLines[..i]);
  }

  /** `main` after the argument checks: refuse a raw binary log, otherwise
      count the first `LinesRead` lines of the file, in order, and report
      the line count, the number of tables, the totals, and the tables in
      descending order of (UPDATE, INSERT, DELETE, SELECT). */
  method Analyze(data: seq<Byte>, rawLines: seq<string>, limit: int) returns (out: Output)
    ensures out.BinaryLogRejected? <==> IsBinlogFile(data)
    ensures out.Counted? ==>
      var st := RunLines(Initial, StripAll(rawLines[..LinesRead(|rawLines|, limit)]));
      && Indexed(st.tables, st.order)
      && out.summary == Summary(LinesRead(|rawLines|, limit), |st.tables|, st.total)
      && out.tables == TableReport(st)
  {
    if IsBinlogFile(data) {
      return BinaryLogRejected;
    }
    var stats := new BinlogStats();
    var lineCount := 0;
    var i := 0;
    while i < |rawLines|
      invariant 0 <= i <= |rawLines|
      invariant lineCount == i
      invariant limit > 0 ==> lineCount < limit
      invariant stats.State() == RunLines(Initial, StripAll(rawLines[..i]))
    {
      var line := Strip(rawLines[i]);
      RunNextLine(rawLines, i);
      lineCount := lineCount + 1;
      stats.ProcessLine(line);
      i := i + 1;
      if limit > 0 && lineCount >= limit {
        break;
      }
    }
    ghost var n := LinesRead(|rawLines|, limit);
    assert lineCount == n;
    ghost var st := RunLines(Initial, StripAll(rawLines[..n]));
    assert stats.State() == st;
    RunConsistent(Initial, StripAll(rawLines[..n]));
    assert Indexed(stats.tableStat, stats.tableOrder);
    var items := Items(stats.tableStat, stats.tableOrder);
    out := Counted(Summary(lineCount, |stats.tableStat|, stats.totalStat), Sort(items));
  }
}

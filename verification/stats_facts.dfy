/**
  What one line, and a whole run of lines, does to the counters.
 */
module StatsFacts {
  import opened Wrappers
  import opened Text
  import opened Curd
  import opened Rules
  import opened RuleFacts
  import opened Stats

  /** The classifier matches the keyword in any casing but returns it as the
      line spells it, and only the upper-case keys name a kind: together a
      line is counted exactly when it begins with an upper-case key. */
  lemma ClassifiedKind(line: string)
    ensures (match CurdStatement(line) case Some(t) => KindOf(t) case None => None) == LineKind(line)
  {
    if |line| >= 6 {
      match KindOf(line[..6]) {
        case Some(k) =>
          assert line[0..6] == Name(k);
          KeywordAtLiteral(line, 0, Name(k));
        case None =>
      }
    }
  }

  /** A statement in lower case, such as `insert into ...`, is recognised by
      the classifier and yet changes no counter. */
  lemma LowerCaseNotCounted(st: RunState, line: string)
    requires |line| >= 6 && line[..6] == "insert"
    ensures CurdStatement(line) == Some("insert")
    ensures Step(st, line) == st
  {
    assert forall k | 0 <= k < 6 :: line[k] == "insert"[k];
    assert KeywordAt(line, 0, "INSERT");
    assert line[0] == 'i' && !MatchesLetter(line[0], "USE"[0]);
  }

  /** `stat_table_curd_info`: the table's record exists afterwards; it was
      created with zero counts if new; only its count for `k` rose, by one;
      every other table is untouched; and the sum over tables for `k` rose by
      one while the sums for the other kinds stayed. */
  lemma AddTableEffect(st: RunState, name: string, k: Kind)
    ensures var r := AddTable(st, name, k);
      && r.tables.Keys == st.tables.Keys + {name}
      && Get(r.tables[name], k) == ValueOf(st.tables, name, k) + 1
      && (forall j: Kind :: j != k ==> Get(r.tables[name], j) == ValueOf(st.tables, name, j))
      && (forall n | n in st.tables && n != name :: r.tables[n] == st.tables[n])
      && (name in st.tables ==> r.order == st.order)
      && (name !in st.tables ==> r.order == st.order + [name])
      && r.database == st.database && r.total == st.total
    ensures Consistent(st) ==> forall j: Kind ::
      TableSum(AddTable(st, name, k).tables, AddTable(st, name, k).order, j)
        == TableSum(st.tables, st.order, j) + (if j == k then 1 else 0)
  {
    AddTableRecord(st, name, k);
    if Consistent(st) {
      forall j: Kind
        ensures TableSum(AddTable(st, name, k).tables, AddTable(st, name, k).order, j)
             == TableSum(st.tables, st.order, j) + (if j == k then 1 else 0)
      {
        AddTableSum(st, name, k, j);
      }
    }
  }

  /** The table map, key order and other fields after counting a `k`
      statement against `name`. */
  lemma AddTableRecord(st: RunState, name: string, k: Kind)
    ensures var r := AddTable(st, name, k);
      && r.tables.Keys == st.tables.Keys + {name}
      && Get(r.tables[name], k) == ValueOf(st.tables, name, k) + 1
      && (forall j: Kind :: j != k ==> Get(r.tables[name], j) == ValueOf(st.tables, name, j))
      && (forall n | n in st.tables && n != name :: r.tables[n] == st.tables[n])
      && (name in st.tables ==> r.order == st.order)
      && (name !in st.tables ==> r.order == st.order + [name])
      && r.database == st.database && r.total == st.total
  {
  }

  /** The sum over tables for one kind `j` after counting a `k` statement
      against `name`. */
  lemma AddTableSum(st: RunState, name: string, k: Kind, j: Kind)
    requires Indexed(st.tables, st.order)
    ensures TableSum(AddTable(st, name, k).tables, AddTable(st, name, k).order, j)
         == TableSum(st.tables, st.order, j) + (if j == k then 1 else 0)
  {
    var old_ := if name in st.tables then st.tables[name] else Zero;
    var c := Bump(old_, k);
    assert AddTable(st, name, k).tables == st.tables[name := c];
    TableSumUpdate(st.tables, st.order, name, c, j);
    if name in st.tables {
      assert name in st.order;
      assert Get(c, j) == ValueOf(st.tables, name, j) + (if j == k then 1 else 0);
    } else {
      assert name !in st.order;
      var order := st.order + [name];
      assert AddTable(st, name, k).order == order;
      assert order[..|order| - 1] == st.order;
      assert TableSum(st.tables[name := c], order, j) == TableSum(st.tables[name := c], st.order, j) + Get(c, j);
    }
  }

  /** Changing one table's record changes the sum by the difference, when
      the table appears at most once in the order. */
  lemma {:induction false} TableSumUpdate(tables: map<string, Counts>, order: seq<string>, name: string, c: Counts, k: Kind)
    requires Distinct(order)
    ensures TableSum(tables[name := c], order, k) + (if name in order then ValueOf(tables, name, k) else 0)
         == TableSum(tables, order, k) + (if name in order then Get(c, k) else 0)
    decreases |order|
  {
    if order != [] {
      var init, last := order[..|order| - 1], order[|order| - 1];
      assert order == init + [last];
      assert Distinct(init);
      TableSumUpdate(tables, init, name, c, k);
      if name == last {
        assert name !in init;
      }
    }
  }

  /** The precise effect of one line: the database switches only on a `USE`
      directive; the total of a kind rises by one exactly when the line begins
      with its upper-case key, whether or not the structural rule matches;
      a table is counted only when the rule matches, once, under the line's
      own kind, and its key is qualified with the database in effect. */
  lemma StepEffect(st: RunState, line: string)
    ensures Step(st, line).database == (match UseDatabase(line) case Some(db) => db case None => st.database)
    ensures forall j: Kind :: Get(Step(st, line).total, j) == Get(st.total, j) + (if LineKind(line) == Some(j) then 1 else 0)
    ensures Hit(line).None? ==> Step(st, line).tables == st.tables && Step(st, line).order == st.order
    ensures Hit(line).Some? ==>
      && Step(st, line).database == st.database
      && Step(st, line).tables == AddTable(st, QualifiedName(st.database, Hit(line).value.1), Hit(line).value.0).tables
      && Step(st, line).order == AddTable(st, QualifiedName(st.database, Hit(line).value.1), Hit(line).value.0).order
  {
    ClassifiedKind(line);
    if UseDatabase(line).Some? {
      UseIsNotCurd(line);
    }
  }

  /** Recording a table keeps the key order a repetition-free listing of
      the map's keys. */
  lemma AddTableIndexed(st: RunState, name: string, k: Kind)
    requires Indexed(st.tables, st.order)
    ensures Indexed(AddTable(st, name, k).tables, AddTable(st, name, k).order)
  {
    var a := AddTable(st, name, k);
    if name !in st.tables {
      assert name !in st.order;
      forall i | 0 <= i < |a.order| ensures a.order[i] in a.tables {
        if i < |st.order| { assert a.order[i] == st.order[i]; }
      }
    }
  }

  /** Every line keeps the state consistent. */
  lemma StepPreservesConsistent(st: RunState, line: string)
    requires Consistent(st)
    ensures Consistent(Step(st, line))
  {
    var r := Step(st, line);
    StepEffect(st, line);
    match Hit(line)
    case None =>
    case Some((k, t)) =>
      var name := QualifiedName(st.database, t);
      AddTableEffect(st, name, k);
      AddTableIndexed(st, name, k);
      forall j: Kind ensures TableSum(r.tables, r.order, j) <= Get(r.total, j) {
        assert TableSum(r.tables, r.order, j) == TableSum(st.tables, st.order, j) + (if j == k then 1 else 0);
      }
  }

  /** The state after any prefix of the log is consistent; in particular the
      tables together never hold more statements of a kind than its total. */
  lemma {:induction false} RunConsistent(st: RunState, lines: seq<string>)
    requires Consistent(st)
    ensures Consistent(RunLines(st, lines))
    ensures forall k: Kind :: TableSum(RunLines(st, lines).tables, RunLines(st, lines).order, k) <= Get(RunLines(st, lines).total, k)
    decreases |lines|
  {
    if lines != [] {
      RunConsistent(st, lines[..|lines| - 1]);
      StepPreservesConsistent(RunLines(st, lines[..|lines| - 1]), lines[|lines| - 1]);
    }
  }

  /** The total of a kind counts the lines that begin with its upper-case key. */
  lemma {:induction false} RunTotals(st: RunState, lines: seq<string>)
    ensures forall k: Kind :: Get(RunLines(st, lines).total, k) == Get(st.total, k) + CountKind(lines, k)
    decreases |lines|
  {
    if lines != [] {
      RunTotals(st, lines[..|lines| - 1]);
      StepEffect(RunLines(st, lines[..|lines| - 1]), lines[|lines| - 1]);
    }
  }

  /** Counters only grow: no table is ever removed, no count decreases, and
      tables keep the position at which they were first seen. */
  lemma {:induction false} RunGrows(st: RunState, lines: seq<string>)
    ensures st.tables.Keys <= RunLines(st, lines).tables.Keys
    ensures forall n, k: Kind | n in st.tables :: Get(st.tables[n], k) <= Get(RunLines(st, lines).tables[n], k)
    ensures forall k: Kind :: Get(st.total, k) <= Get(RunLines(st, lines).total, k)
    ensures st.order <= RunLines(st, lines).order
    decreases |lines|
  {
    if lines != [] {
      var prev := RunLines(st, lines[..|lines| - 1]);
      var line := lines[|lines| - 1];
      RunGrows(st, lines[..|lines| - 1]);
      StepEffect(prev, line);
      match Hit(line)
      case None =>
      case Some((k, t)) =>
        AddTableEffect(prev, QualifiedName(prev.database, t), k);
    }
  }

  /** Folding over two pieces of the log one after the other. */
  lemma {:induction false} RunAppend(st: RunState, a: seq<string>, b: seq<string>)
    ensures RunLines(st, a + b) == RunLines(RunLines(st, a), b)
    decreases |b|
  {
    if b == [] {
      assert a + b == a;
    } else {
      assert (a + b)[..|a + b| - 1] == a + b[..|b| - 1];
      RunAppend(st, a, b[..|b| - 1]);
    }
  }

  /** A key of `after`'s table map that `before` lacks or holds with other
      counts: a table counted in between. */
  predicate Touched(before: RunState, after: RunState, n: string) {
    n in after.tables && (n !in before.tables || after.tables[n] != before.tables[n])
  }

  /** While no `USE` directive appears, the database stays, and every table
      counted meanwhile, new or not, is keyed by that database and a quoted
      identifier. */
  lemma {:induction false} RunWithoutUse(st: RunState, lines: seq<string>)
    requires forall i | 0 <= i < |lines| :: UseDatabase(lines[i]).None?
    ensures RunLines(st, lines).database == st.database
    ensures forall n | Touched(st, RunLines(st, lines), n) ::
      exists w :: IsWord(w) && n == QualifiedName(st.database, w)
    decreases |lines|
  {
    if lines != [] {
      var prev := RunLines(st, lines[..|lines| - 1]);
      var line := lines[|lines| - 1];
      var r := RunLines(st, lines);
      RunWithoutUse(st, lines[..|lines| - 1]);
      StepEffect(prev, line);
      assert r == Step(prev, line);
      forall n | Touched(st, r, n)
        ensures exists w :: IsWord(w) && n == QualifiedName(st.database, w)
      {
        match Hit(line)
        case None =>
          assert Touched(st, prev, n);
        case Some((k, t)) =>
          var name := QualifiedName(prev.database, t);
          AddTableRecord(prev, name, k);
          if n == name {
            assert IsWord(t);
          } else {
            assert Touched(st, prev, n);
          }
      }
    }
  }

  /** After `USE `db``, every table counted before the next directive, new
      or not, is keyed `db.table`. */
  lemma UseQualifiesLaterTables(st: RunState, db: string, rest: string, lines: seq<string>)
    requires IsWord(db)
    requires forall i | 0 <= i < |lines| :: UseDatabase(lines[i]).None?
    ensures var r := RunLines(st, ["USE `" + db + "`" + rest] + lines);
      && r.database == db
      && forall n | Touched(st, r, n) :: exists w :: IsWord(w) && n == db + "." + w
  {
    var directive := "USE `" + db + "`" + rest;
    UseRoundTrip(db, rest);
    UseIsNotCurd(directive);
    RunAppend(st, [directive], lines);
    assert [directive][..0] == [];
    var mid := RunLines(st, [directive]);
    assert mid == Step(st, directive);
    assert mid.tables == st.tables && mid.database == db;
    RunWithoutUse(mid, lines);
    var r := RunLines(st, [directive] + lines);
    forall n | Touched(st, r, n)
      ensures exists w :: IsWord(w) && n == db + "." + w
    {
      assert Touched(mid, r, n);
      var w :| IsWord(w) && n == QualifiedName(mid.database, w);
    }
  }

  /** The element `order[i]` belongs to the set of `order`'s elements; a
      sequence without repetitions has as many elements as that set. */
  lemma {:induction false} DistinctCard(order: seq<string>)
    requires Distinct(order)
    ensures |set n | n in order| == |order|
    decreases |order|
  {
    if order != [] {
      var init, last := order[..|order| - 1], order[|order| - 1];
      assert order == init + [last];
      assert Distinct(init);
      DistinctCard(init);
      assert last !in init;
      assert (set n | n in order) == (set n | n in init) + {last};
    }
  }

  /** TABLE_COUNT, the size of the table map, is the number of distinct
      table keys, listed once each in first-seen order. */
  lemma TableCount(st: RunState)
    requires Consistent(st)
    ensures |st.tables| == |st.order|
  {
    DistinctCard(st.order);
    assert st.tables.Keys == set n | n in st.order;
  }

  /** Qualified keys never collide: both the database and the table are
      `\w+` words, which contain no dot, so the key determines them. */
  lemma QualifiedNameInjective(db1: string, t1: string, db2: string, t2: string)
    requires db1 == "" || IsWord(db1)
    requires db2 == "" || IsWord(db2)
    requires IsWord(t1) && IsWord(t2)
    requires QualifiedName(db1, t1) == QualifiedName(db2, t2)
    ensures db1 == db2 && t1 == t2
  {
    var n := QualifiedName(db1, t1);
    if db1 != "" {
      assert n[|db1|] == '.';
    }
    if db2 != "" {
      assert n[|db2|] == '.';
    }
    if db1 != "" && db2 != "" {
      assert db1 == n[..|db1|] == db2;
      assert t1 == n[|db1| + 1..] == t2;
    }
  }

  /** A `USE` directive only switches the database. */
  lemma UseLineStep(st: RunState, db: string, rest: string)
    requires IsWord(db)
    ensures Step(st, "USE `" + db + "`" + rest) == st.(database := db)
  {
    UseRoundTrip(db, rest);
    UseIsNotCurd("USE `" + db + "`" + rest);
  }

  /** A line that begins with an upper-case key and matches its rule counts
      once in the totals and once against its table, qualified with the
      database in effect. */
  lemma KeywordLineStep(st: RunState, k: Kind, line: string, t: string)
    requires |line| >= 6 && line[..6] == Name(k)
    requires TableByRule(k, line) == Some(t)
    ensures Step(st, line) == AddTable(AddTotal(st, k), QualifiedName(st.database, t), k)
  {
    assert CurdStatement(line) == Some(Name(k)) by {
      KeywordAtLiteral(line, 0, Name(k));
    }
    assert UseDatabase(line).None? by {
      if UseDatabase(line).Some? {
        UseIsNotCurd(line);
      }
    }
    assert ParseCurd(st, Name(k), line) == AddTable(AddTotal(st, k), QualifiedName(st.database, t), k);
  }

  lemma InsertLineStep(st: RunState, t: string, cols: string, vals: string, rest: string)
    requires IsWord(t) && IsLineText(cols) && IsLineText(vals)
    ensures var line := "INSERT INTO `" + t + "` (" + cols + ") VALUES (" + vals + ")" + rest;
      Step(st, line) == AddTable(AddTotal(st, Insert), QualifiedName(st.database, t), Insert)
  {
    var line := "INSERT INTO `" + t + "` (" + cols + ") VALUES (" + vals + ")" + rest;
    InsertRoundTrip(t, cols, vals, rest);
    assert line[..6] == "INSERT";
    KeywordLineStep(st, Insert, line, t);
  }

  lemma UpdateLineStep(st: RunState, t: string, assigns: string, cond: string)
    requires IsWord(t) && IsLineText(assigns) && IsLineText(cond)
    ensures var line := "UPDATE `" + t + "` SET " + assigns + " WHERE " + cond;
      Step(st, line) == AddTable(AddTotal(st, Update), QualifiedName(st.database, t), Update)
  {
    var line := "UPDATE `" + t + "` SET " + assigns + " WHERE " + cond;
    UpdateRoundTrip(t, assigns, cond);
    assert line[..6] == "UPDATE";
    KeywordLineStep(st, Update, line, t);
  }

  lemma SelectLineStep(st: RunState, cols: string, t: string, cond: string)
    requires IsWord(t) && IsLineText(cond) && IsLineText(cols) && !IsSpace(cols[0])
    requires forall k | 0 <= k < |cols| :: cols[k] != '`'
    ensures var line := "SELECT " + cols + " FROM `" + t + "` WHERE " + cond;
      Step(st, line) == AddTable(AddTotal(st, Select), QualifiedName(st.database, t), Select)
  {
    var line := "SELECT " + cols + " FROM `" + t + "` WHERE " + cond;
    SelectRoundTrip(cols, t, cond);
    assert line[..6] == "SELECT";
    KeywordLineStep(st, Select, line, t);
  }

  lemma DeleteLineStep(st: RunState, t: string, cond: string)
    requires IsWord(t) && IsLineText(cond)
    ensures var line := "DELETE FROM `" + t + "` WHERE " + cond;
      Step(st, line) == AddTable(AddTotal(st, Delete), QualifiedName(st.database, t), Delete)
  {
    var line := "DELETE FROM `" + t + "` WHERE " + cond;
    DeleteRoundTrip(t, cond);
    assert line[..6] == "DELETE";
    KeywordLineStep(st, Delete, line, t);
  }

  lemma RunThree(st: RunState, a: string, b: string, c: string)
    ensures RunLines(st, [a, b, c]) == Step(Step(Step(st, a), b), c)
  {
    assert [a][..0] == [];
    assert RunLines(st, [a]) == Step(st, a);
    assert [a, b][..1] == [a];
    assert RunLines(st, [a, b]) == Step(RunLines(st, [a]), b);
    assert [a, b, c][..2] == [a, b];
  }

  /** The second and third lines of the scenario below, on their own. */
  lemma FirstInsertStep(db: string, t: string, cols: string, vals: string, rest: string)
    requires IsWord(db) && IsWord(t) && IsLineText(cols) && IsLineText(vals)
    ensures Step(RunState(db, Zero, map[], []), "INSERT INTO `" + t + "` (" + cols + ") VALUES (" + vals + ")" + rest)
         == RunState(db, Counts(1, 0, 0, 0), map[db + "." + t := Counts(1, 0, 0, 0)], [db + "." + t])
  {
    InsertLineStep(RunState(db, Zero, map[], []), t, cols, vals, rest);
    FirstInsertState(db, t);
  }

  /** The state a first INSERT against `t` leaves under the database `db`. */
  lemma FirstInsertState(db: string, t: string)
    requires IsWord(db)
    ensures AddTable(AddTotal(RunState(db, Zero, map[], []), Insert), QualifiedName(db, t), Insert)
         == RunState(db, Counts(1, 0, 0, 0), map[db + "." + t := Counts(1, 0, 0, 0)], [db + "." + t])
  {
  }

  lemma SelectAfterInsertStep(db: string, selected: string, t: string, cond: string)
    requires IsWord(db) && IsWord(t) && IsLineText(cond) && IsLineText(selected) && !IsSpace(selected[0])
    requires forall k | 0 <= k < |selected| :: selected[k] != '`'
    ensures Step(RunState(db, Counts(1, 0, 0, 0), map[db + "." + t := Counts(1, 0, 0, 0)], [db + "." + t]),
                 "SELECT " + selected + " FROM `" + t + "` WHERE " + cond)
         == RunState(db, Counts(1, 0, 1, 0), map[db + "." + t := Counts(1, 0, 1, 0)], [db + "." + t])
  {
    SelectLineStep(RunState(db, Counts(1, 0, 0, 0), map[db + "." + t := Counts(1, 0, 0, 0)], [db + "." + t]), selected, t, cond);
  }

  /** A log that selects a database, inserts into a table and reads it back
    (for instance `USE `shop`;`, `INSERT INTO `orders` (id) VALUES (1);`,
    `SELECT id FROM `orders` WHERE id=1;`): one INSERT and one SELECT in the
    totals, and both against the one table `db.t`. */
  lemma UseInsertSelect(db: string, useRest: string, t: string, cols: string, vals: string, insertRest: string,
                        selected: string, cond: string)
    requires IsWord(db) && IsWord(t)
    requires IsLineText(cols) && IsLineText(vals) && IsLineText(cond)
    requires IsLineText(selected) && !IsSpace(selected[0])
    requires forall k | 0 <= k < |selected| :: selected[k] != '`'
    ensures var st := RunLines(Initial, [
        "USE `" + db + "`" + useRest,
        "INSERT INTO `" + t + "` (" + cols + ") VALUES (" + vals + ")" + insertRest,
        "SELECT " + selected + " FROM `" + t + "` WHERE " + cond]);
      && st.database == db
      && st.total == Counts(1, 0, 1, 0)
      && st.tables == map[db + "." + t := Counts(1, 0, 1, 0)]
      && st.order == [db + "." + t]
  {
    UseLineStep(Initial, db, useRest);
    FirstInsertStep(db, t, cols, vals, insertRest);
    SelectAfterInsertStep(db, selected, t, cond);
    RunThree(Initial, "USE `" + db + "`" + useRest,
      "INSERT INTO `" + t + "` (" + cols + ") VALUES (" + vals + ")" + insertRest,
      "SELECT " + selected + " FROM `" + t + "` WHERE " + cond);
  }
}

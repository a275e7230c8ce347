/**
  The per-table report: the items of the table map, in first-seen order,
  sorted in descending order of the key (UPDATE, INSERT, DELETE, SELECT).
  Python's `sorted(..., reverse=True)` is stable, so tables with equal
  counts keep their first-seen order.
 */
module Report {
  import opened Curd
  import opened Stats
  import opened StatsFacts

  type Entry = (string, Counts)

  /** `a` sorts strictly before `b`: its key (UPDATE, INSERT, DELETE, SELECT)
      is lexicographically greater. */
  predicate Outranks(a: Counts, b: Counts) {
    || a.update > b.update
    || (a.update == b.update && a.insert > b.insert)
    || (a.update == b.update && a.insert == b.insert && a.delete > b.delete)
    || (a.update == b.update && a.insert == b.insert && a.delete == b.delete && a.select > b.select)
  }

  /** The key compares every counter, so two records of which neither
      outranks the other are equal, and ranking is transitive. */
  lemma OutranksOrder(a: Counts, b: Counts, c: Counts)
    ensures !Outranks(a, a)
    ensures !Outranks(a, b) && !Outranks(b, a) ==> a == b
    ensures Outranks(a, b) && Outranks(b, c) ==> Outranks(a, c)
    ensures !Outranks(a, b) && !Outranks(b, c) ==> !Outranks(a, c)
  {
  }

  /** Descending order: no entry is outranked by one after it. */
  predicate NonIncreasing(s: seq<Entry>) {
    forall i, j | 0 <= i < j < |s| :: !Outranks(s[j].1, s[i].1)
  }

  /** Place `e` in front of the first entry that does not outrank it. */
  function Insert(e: Entry, t: seq<Entry>): (r: seq<Entry>)
    ensures |r| == |t| + 1
    ensures multiset(r) == multiset(t) + multiset{e}
  {
    if t == [] || !Outranks(t[0].1, e.1) then [e] + t
    else
      assert t == [t[0]] + t[1..];
      [t[0]] + Insert(e, t[1..])
  }

  /** The stable descending sort: each entry, from the last to the first, is
      inserted into the sorted entries after it. */
  function Sort(s: seq<Entry>): seq<Entry> {
    if s == [] then [] else Insert(s[0], Sort(s[1..]))
  }

  /** The names, in order, of the entries whose counts are exactly `c`. */
  function WithCounts(s: seq<Entry>, c: Counts): seq<string> {
    if s == [] then []
    else (if s[0].1 == c then [s[0].0] else []) + WithCounts(s[1..], c)
  }

  /** What `Insert` places after an entry that outranks `e` does not outrank
      that entry, when `t` is in descending order. */
  lemma InsertedAfterHead(e: Entry, t: seq<Entry>, x: Entry)
    requires NonIncreasing(t) && t != [] && Outranks(t[0].1, e.1)
    requires x in multiset(Insert(e, t[1..]))
    ensures !Outranks(x.1, t[0].1)
  {
    OutranksOrder(x.1, t[0].1, e.1);
    if x != e {
      assert x in multiset(t[1..]);
      var k :| 0 <= k < |t[1..]| && t[1..][k] == x;
      assert t[k + 1] == x;
    }
  }

  lemma {:induction false} InsertNonIncreasing(e: Entry, t: seq<Entry>)
    requires NonIncreasing(t)
    ensures NonIncreasing(Insert(e, t))
    decreases |t|
  {
    if t != [] && Outranks(t[0].1, e.1) {
      var rest := Insert(e, t[1..]);
      InsertNonIncreasing(e, t[1..]);
      forall j | 0 <= j < |rest|
        ensures !Outranks(rest[j].1, t[0].1)
      {
        assert rest[j] in multiset(rest);
        InsertedAfterHead(e, t, rest[j]);
      }
      assert Insert(e, t) == [t[0]] + rest;
    } else {
      forall j | 0 < j < |t| + 1
        ensures !Outranks(([e] + t)[j].1, e.1)
      {
        OutranksOrder(t[j - 1].1, t[0].1, e.1);
      }
    }
  }

  /** The report is in descending order of the key. */
  lemma {:induction false} SortNonIncreasing(s: seq<Entry>)
    ensures NonIncreasing(Sort(s))
    decreases |s|
  {
    if s != [] {
      SortNonIncreasing(s[1..]);
      InsertNonIncreasing(s[0], Sort(s[1..]));
    }
  }

  /** The report holds exactly the items, each once. */
  lemma {:induction false} SortPermutation(s: seq<Entry>)
    ensures |Sort(s)| == |s|
    ensures multiset(Sort(s)) == multiset(s)
    decreases |s|
  {
    if s != [] {
      SortPermutation(s[1..]);
      assert s == [s[0]] + s[1..];
    }
  }

  lemma {:induction false} WithCountsConcat(a: seq<Entry>, b: seq<Entry>, c: Counts)
    ensures WithCounts(a + b, c) == WithCounts(a, c) + WithCounts(b, c)
    decreases |a|
  {
    if a != [] {
      assert (a + b)[0] == a[0] && (a + b)[1..] == a[1..] + b;
      WithCountsConcat(a[1..], b, c);
    } else {
      assert a + b == b;
    }
  }

  /** Inserting passes over only entries that outrank `e`, none of which has
      `e`'s counts: `e` lands in front of every entry equal to it. */
  lemma {:induction false} InsertStable(e: Entry, t: seq<Entry>, c: Counts)
    ensures WithCounts(Insert(e, t), c) == WithCounts([e], c) + WithCounts(t, c)
    decreases |t|
  {
    if t == [] || !Outranks(t[0].1, e.1) {
      WithCountsConcat([e], t, c);
    } else {
      OutranksOrder(e.1, e.1, e.1);
      InsertStable(e, t[1..], c);
      WithCountsConcat([t[0]], Insert(e, t[1..]), c);
      WithCountsConcat([e], t[1..], c);
      assert WithCounts(t, c) == WithCounts([t[0]], c) + WithCounts(t[1..], c) by {
        assert t == [t[0]] + t[1..];
        WithCountsConcat([t[0]], t[1..], c);
      }
    }
  }

  /** The sort is stable: among tables with the same counts, the report keeps
      the order of the input. */
  lemma {:induction false} SortStable(s: seq<Entry>, c: Counts)
    ensures WithCounts(Sort(s), c) == WithCounts(s, c)
    decreases |s|
  {
    if s != [] {
      SortStable(s[1..], c);
      InsertStable(s[0], Sort(s[1..]), c);
      assert s == [s[0]] + s[1..];
      WithCountsConcat([s[0]], s[1..], c);
    }
  }

  /** `GL_TABLE_CURD_STAT.items()`: every table with its counts, in the order
      the tables were first seen. */
  function Items(tables: map<string, Counts>, order: seq<string>): (r: seq<Entry>)
    requires Indexed(tables, order)
    ensures |r| == |order|
    ensures forall i | 0 <= i < |r| :: r[i].0 == order[i]
    ensures forall i | 0 <= i < |r| :: r[i].0 in tables && r[i].1 == tables[r[i].0]
    ensures forall n | n in tables :: exists i | 0 <= i < |r| :: r[i].0 == n
    ensures forall i, j | 0 <= i < j < |r| :: r[i].0 != r[j].0
  {
    var r := seq(|order|, i requires 0 <= i < |order| => (order[i], tables[order[i]]));
    assert forall n | n in tables :: exists i | 0 <= i < |r| :: r[i].0 == n by {
      forall n | n in tables ensures exists i | 0 <= i < |r| :: r[i].0 == n {
        var i :| 0 <= i < |order| && order[i] == n;
        assert r[i].0 == n;
      }
    }
    r
  }

  /** The per-table part of the report. */
  function TableReport(st: RunState): seq<Entry>
    requires Indexed(st.tables, st.order)
  {
    Sort(Items(st.tables, st.order))
  }

  /** The report has one entry per table. */
  lemma ReportLength(st: RunState)
    requires Indexed(st.tables, st.order)
    ensures |TableReport(st)| == |st.tables|
  {
    SortPermutation(Items(st.tables, st.order));
    DistinctCard(st.order);
    assert st.tables.Keys == set n | n in st.order;
  }

  /** Every table is in the report, with its counts. */
  lemma ReportCoversTables(st: RunState)
    requires Indexed(st.tables, st.order)
    ensures forall n | n in st.tables :: (n, st.tables[n]) in TableReport(st)
  {
    var items := Items(st.tables, st.order);
    SortPermutation(items);
    SameEntries(TableReport(st), items);
    forall n | n in st.tables ensures (n, st.tables[n]) in items {
      var i :| 0 <= i < |items| && items[i].0 == n;
    }
  }

  /** Every entry of the report is a table with its counts. */
  lemma ReportOnlyTables(st: RunState)
    requires Indexed(st.tables, st.order)
    ensures forall e | e in TableReport(st) :: e.0 in st.tables && e.1 == st.tables[e.0]
  {
    var items := Items(st.tables, st.order);
    SortPermutation(items);
    SameEntries(TableReport(st), items);
    forall e | e in items ensures e.0 in st.tables && e.1 == st.tables[e.0] {
      var i :| 0 <= i < |items| && items[i] == e;
    }
  }

  /** The report lists every table once with its counts, and nothing else,
      in descending order of the key. */
  lemma ReportListsTables(st: RunState)
    requires Indexed(st.tables, st.order)
    ensures |TableReport(st)| == |st.tables|
    ensures NonIncreasing(TableReport(st))
    ensures forall n | n in st.tables :: (n, st.tables[n]) in TableReport(st)
    ensures forall e | e in TableReport(st) :: e.0 in st.tables && e.1 == st.tables[e.0]
  {
    ReportLength(st);
    SortNonIncreasing(Items(st.tables, st.order));
    ReportCoversTables(st);
    ReportOnlyTables(st);
  }

  /** The tables of `order` whose counts are `c`, in the order given. */
  function KeysWithCounts(tables: map<string, Counts>, order: seq<string>, c: Counts): seq<string> {
    if order == [] then []
    else
      var first := if order[0] in tables && tables[order[0]] == c then [order[0]] else [];
      first + KeysWithCounts(tables, order[1..], c)
  }

  /** Filtering the items by counts keeps the keys of `order` with those counts. */
  lemma {:induction false} WithCountsOfItems(tables: map<string, Counts>, order: seq<string>, items: seq<Entry>, c: Counts)
    requires |items| == |order|
    requires forall i | 0 <= i < |items| :: items[i].0 == order[i] && order[i] in tables && items[i].1 == tables[order[i]]
    ensures WithCounts(items, c) == KeysWithCounts(tables, order, c)
    decreases |items|
  {
    if items != [] {
      WithCountsOfItems(tables, order[1..], items[1..], c);
    }
  }

  /** Tables with equal counts appear in the report in the order they were
      first seen. */
  lemma ReportKeepsFirstSeenOrder(st: RunState, c: Counts)
    requires Indexed(st.tables, st.order)
    ensures WithCounts(TableReport(st), c) == KeysWithCounts(st.tables, st.order, c)
  {
    var items := Items(st.tables, st.order);
    SortStable(items, c);
    WithCountsOfItems(st.tables, st.order, items, c);
  }

  /** Two sequences with the same multiset hold the same entries. */
  lemma SameEntries(a: seq<Entry>, b: seq<Entry>)
    requires multiset(a) == multiset(b)
    ensures forall e :: e in a <==> e in b
  {
    forall e ensures e in a <==> e in b {
      assert e in a <==> e in multiset(a);
      assert e in b <==> e in multiset(b);
    }
  }
}

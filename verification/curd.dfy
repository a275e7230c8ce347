/**
  The four statement kinds and the record of four counters kept both as the
  global totals and as each table's value (AnalysisBinlogTool.py:26-33).
 */
module Curd {
  import opened Wrappers

  datatype Kind = Insert | Update | Select | Delete

  /** The dictionary key under which the source counts a kind. */
  function Name(k: Kind): string {
    match k
    case Insert => "INSERT"
    case Update => "UPDATE"
    case Select => "SELECT"
    case Delete => "DELETE"
  }

  /** `curd_type in curd_rule`: only the four upper-case keys name a kind. */
  function KindOf(t: string): (r: Option<Kind>)
    ensures r.Some? ==> Name(r.value) == t
    ensures r.None? <==> forall k: Kind :: Name(k) != t
  {
    if t == "INSERT" then Some(Insert)
    else if t == "UPDATE" then Some(Update)
    else if t == "SELECT" then Some(Select)
    else if t == "DELETE" then Some(Delete)
    else None
  }

  datatype Counts = Counts(insert: nat, update: nat, select: nat, delete: nat)

  /** A fresh record: every count zero. */
  const Zero := Counts(0, 0, 0, 0)

  function Get(c: Counts, k: Kind): nat {
    match k
    case Insert => c.insert
    case Update => c.update
    case Select => c.select
    case Delete => c.delete
  }

  /** `d[curd_type] += 1`: one count rises by one, the other three stay. */
  function Bump(c: Counts, k: Kind): (r: Counts)
    ensures Get(r, k) == Get(c, k) + 1
    ensures forall j: Kind :: j != k ==> Get(r, j) == Get(c, j)
  {
    match k
    case Insert => c.(insert := c.insert + 1)
    case Update => c.(update := c.update + 1)
    case Select => c.(select := c.select + 1)
    case Delete => c.(delete := c.delete + 1)
  }
}

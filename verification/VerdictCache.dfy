/**
 The verdicts a cache holds, and the one operation everything about the durable
 cache reduces to: first evaluation wins. The in-memory map of an instance and the
 table in the file both change only by it.
 */
module VerdictCache {
  /** Stands for its own digest, which is taken to separate keys. */
  datatype CacheKey = CacheKey(
    typeVersion: string, field: string, inputDigest: nat, modelId: string, promptVersion: string)

  datatype CachedValue = Value(text: string) | Error(message: string)

  /** A row of the verdict table; `verdict` is its columns is_error and value. */
  datatype Row = Row(key: CacheKey, verdict: CachedValue)

  type Table = map<CacheKey, CachedValue>

  /** The table after offering it `rows` in order, each kept only if its key is new. */
  function FirstWins(table: Table, rows: seq<Row>): (t: Table)
    ensures table.Keys <= t.Keys
    ensures forall k :: k in table ==> t[k] == table[k]
  {
    if rows == [] then table
    else
      var before := FirstWins(table, rows[..|rows| - 1]);
      var row := rows[|rows| - 1];
      if row.key in before then before else before[row.key := row.verdict]
  }

  /** The rows of `rows` that were new when it was their turn. */
  function FreshRows(table: Table, rows: seq<Row>): seq<Row> {
    if rows == [] then []
    else
      var earlier := rows[..|rows| - 1];
      var row := rows[|rows| - 1];
      FreshRows(table, earlier) + if row.key in FirstWins(table, earlier) then [] else [row]
  }

  /** What a group of rows says: each key's first verdict. */
  function Group(rows: seq<Row>): Table {
    FirstWins(map[], rows)
  }

  /** Offering rows to a table is adding the group below what the table already holds. */
  lemma {:induction false} FirstWinsIsUnion(table: Table, rows: seq<Row>)
    ensures FirstWins(table, rows) == Group(rows) + table
  {
    if rows != [] {
      FirstWinsIsUnion(table, rows[..|rows| - 1]);
    }
  }

  /** The fresh rows say exactly what the group says about keys the table lacks. */
  lemma {:induction false} FreshRowsAreTheMissingOnes(table: Table, rows: seq<Row>)
    ensures Group(FreshRows(table, rows)) == Group(rows) - table.Keys
  {
    if rows != [] {
      var earlier := rows[..|rows| - 1];
      var row := rows[|rows| - 1];
      FreshRowsAreTheMissingOnes(table, earlier);
      FirstWinsIsUnion(table, earlier);
      if row.key in FirstWins(table, earlier) {
        assert FreshRows(table, rows) == FreshRows(table, earlier);
      } else {
        assert FreshRows(table, rows)[..|FreshRows(table, rows)| - 1] == FreshRows(table, earlier);
      }
    }
  }

  ghost predicate Names(rows: seq<Row>, k: CacheKey) {
    exists j :: 0 <= j < |rows| && rows[j].key == k
  }

  /** Every row of a group names a key of the group, and every key comes from a row. */
  lemma {:induction false} GroupKeys(rows: seq<Row>, k: CacheKey)
    ensures k in Group(rows) <==> Names(rows, k)
  {
    if rows != [] {
      GroupKeys(rows[..|rows| - 1], k);
      assert rows == rows[..|rows| - 1] + [rows[|rows| - 1]];
    }
  }

  /** Fresh rows never repeat a key, and none of them was in the table. */
  lemma {:induction false} FreshRowsDistinct(table: Table, rows: seq<Row>)
    ensures forall j :: 0 <= j < |FreshRows(table, rows)| ==> FreshRows(table, rows)[j].key !in table
    ensures forall j, k :: 0 <= j < k < |FreshRows(table, rows)| ==> FreshRows(table, rows)[j].key != FreshRows(table, rows)[k].key
  {
    if rows != [] {
      var earlier := rows[..|rows| - 1];
      FreshRowsDistinct(table, earlier);
      FirstWinsIsUnion(table, earlier);
      FreshRowsAreTheMissingOnes(table, earlier);
      forall j | 0 <= j < |FreshRows(table, earlier)|
        ensures FreshRows(table, earlier)[j].key in FirstWins(table, earlier)
      {
        GroupKeys(FreshRows(table, earlier), FreshRows(table, earlier)[j].key);
      }
    }
  }

  /** Rows of several groups, one after another. */
  function Flatten(groups: seq<seq<Row>>): seq<Row> {
    if groups == [] then [] else Flatten(groups[..|groups| - 1]) + groups[|groups| - 1]
  }

  lemma {:induction false} FirstWinsAppends(table: Table, a: seq<Row>, b: seq<Row>)
    ensures FirstWins(table, a + b) == FirstWins(FirstWins(table, a), b)
  {
    if b == [] {
      assert a + b == a;
    } else {
      assert (a + b)[..|a + b| - 1] == a + b[..|b| - 1];
      FirstWinsAppends(table, a, b[..|b| - 1]);
    }
  }
}

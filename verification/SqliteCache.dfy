/** The cache's own code, one lock section or transaction per method. */
module SqliteCache {
  import opened Wrappers
  import opened VerdictCache
  import opened CacheProtocol
  import opened CacheWriter

  /** The rows whose key ends up holding somebody else's verdict. */
  function Conflicts(table: Table, rows: seq<Row>): seq<Row> {
    if rows == [] then []
    else
      var row := rows[|rows| - 1];
      Conflicts(table, rows[..|rows| - 1]) + if row.key in table && table[row.key] != row.verdict then [row] else []
  }

  /** Keys already decided stay decided, so conflicts among them can be judged at the end. */
  lemma {:induction false} ConflictsSettle(table: Table, later: Table, rows: seq<Row>)
    requires forall k :: Names(rows, k) ==> k in table
    requires forall k :: k in table ==> k in later && later[k] == table[k]
    ensures Conflicts(later, rows) == Conflicts(table, rows)
  {
    if rows != [] {
      var earlier := rows[..|rows| - 1];
      forall k | Names(earlier, k) ensures Names(rows, k) {
        var j :| 0 <= j < |earlier| && earlier[j].key == k;
        assert rows[j].key == k;
      }
      assert rows[|rows| - 1].key in table by {
        assert Names(rows, rows[|rows| - 1].key);
      }
      ConflictsSettle(table, later, earlier);
    }
  }

  lemma NamesAreKept(table: Table, rows: seq<Row>, k: CacheKey)
    requires Names(rows, k)
    ensures k in FirstWins(table, rows)
  {
    GroupKeys(rows, k);
    FirstWinsIsUnion(table, rows);
  }

  /** A connection to the file. */
  class Connection {
    var verdicts: Table

    constructor (contents: Table)
      ensures verdicts == contents
    {
      verdicts := contents;
    }

    /**
     One transaction of `INSERT OR IGNORE`s. `refused` is how many rows the database takes
     before it refuses, if it does: then nothing is written. Otherwise first evaluation wins,
     and the rows reported are exactly those whose key holds another verdict afterwards.
     */
    method WriteBatch(batch: seq<Row>, refused: Option<nat>) returns (conflicts: Result<seq<Row>, string>)
      modifies this
      ensures refused.Some? ==> conflicts.Err? && verdicts == old(verdicts)
      ensures refused.None? ==> conflicts == Ok(Conflicts(verdicts, batch)) && verdicts == FirstWins(old(verdicts), batch)
    {
      var transaction := verdicts;
      var found := [];
      var i := 0;
      assert batch[..0] == [];
      while i < |batch|
        invariant 0 <= i <= |batch|
        invariant transaction == FirstWins(old(verdicts), batch[..i])
        invariant found == Conflicts(transaction, batch[..i])
        invariant verdicts == old(verdicts)
      {
        if refused.Some? && refused.value <= i {
          return Err("store write failed");
        }
        ghost var before := transaction;
        var row := batch[i];
        assert batch[..i + 1][..i] == batch[..i];
        if row.key in transaction {
          if transaction[row.key] != row.verdict {
            found := found + [row];
          }
        } else {
          transaction := transaction[row.key := row.verdict];
        }
        forall k | Names(batch[..i], k) ensures k in before {
          NamesAreKept(old(verdicts), batch[..i], k);
        }
        ConflictsSettle(before, transaction, batch[..i]);
        i := i + 1;
      }
      assert batch[..i] == batch;
      if refused.Some? {
        return Err("store commit failed");
      }
      verdicts := transaction;
      return Ok(found);
    }

    /** The point lookup behind `get`; a read the database refuses is a miss. */
    method Committed(key: CacheKey, readable: bool) returns (found: Option<CachedValue>)
      ensures found.Some? <==> readable && key in verdicts
      ensures found.Some? ==> found.value == verdicts[key]
    {
      if readable && key in verdicts {
        return Some(verdicts[key]);
      }
      return None;
    }
  }

  /** Which transactions of a log the database refuses, and after how many rows. */
  type Refusals = nat -> Option<nat>

  /** The table after a log: each transaction the database took, in order. */
  function Replayed(table: Table, trace: seq<Event>, refused: Refusals): Table {
    if trace == [] then table
    else
      var n := |trace| - 1;
      var before := Replayed(table, trace[..n], refused);
      match trace[n]
      case Transaction(groups) => if refused(n).Some? then before else FirstWins(before, Flatten(groups))
      case Replied(_) => before
  }

  /** All rows of a channel's messages. */
  function RowsSent(messages: seq<Message>): seq<Row> {
    if messages == [] then []
    else
      RowsSent(messages[..|messages| - 1]) +
      match messages[|messages| - 1]
      case Rows(rows) => rows
      case Flush(_) => []
  }

  lemma {:induction false} RowsSentAppends(a: seq<Message>, b: seq<Message>)
    ensures RowsSent(a + b) == RowsSent(a) + RowsSent(b)
  {
    if b == [] {
      assert a + b == a;
    } else {
      assert (a + b)[..|a + b| - 1] == a + b[..|b| - 1];
      RowsSentAppends(a, b[..|b| - 1]);
    }
  }

  lemma {:induction false} RowsSentInGroups(groups: seq<seq<Row>>)
    ensures RowsSent(RowsMessages(groups)) == Flatten(groups)
  {
    if groups != [] {
      RowsSentInGroups(groups[..|groups| - 1]);
    }
  }

  /** However the rows were batched, the file ends up as if they had been offered one by one. */
  lemma {:induction false} BatchingDoesNotMatter(table: Table, trace: seq<Event>, refused: Refusals)
    requires forall j :: 0 <= j < |trace| ==> refused(j).None?
    ensures Replayed(table, trace, refused) == FirstWins(table, RowsSent(Messages(trace)))
  {
    if trace != [] {
      var earlier := trace[..|trace| - 1];
      BatchingDoesNotMatter(table, earlier, refused);
      match trace[|trace| - 1]
      case Transaction(groups) =>
        RowsSentInGroups(groups);
        RowsSentAppends(Messages(earlier), RowsMessages(groups));
        FirstWinsAppends(table, RowsSent(Messages(earlier)), Flatten(groups));
      case Replied(id) =>
        var last: seq<Message> := [Flush(id)];
        RowsSentAppends(Messages(earlier), last);
        assert last[..0] == [] && RowsSent(last) == [];
        assert RowsSent(Messages(trace)) == RowsSent(Messages(earlier) + last) == RowsSent(Messages(earlier));
    }
  }

  class SqliteCache {
    /** What this instance answers from; only ever gains keys. */
    var stored: Table
    var messages: seq<Message>

    constructor ()
      ensures stored == map[] && messages == []
    {
      stored, messages := map[], [];
    }

    /** `store`'s locked section, and the send after it: only what the map did not have. */
    method Store(entries: seq<Row>)
      modifies this
      ensures stored == FirstWins(old(stored), entries)
      ensures
        var rows := FreshRows(old(stored), entries);
        messages == if rows == [] then old(messages) else old(messages) + [Rows(rows)]
    {
      var rows := [];
      var i := 0;
      assert entries[..0] == [];
      while i < |entries|
        invariant 0 <= i <= |entries|
        invariant stored == FirstWins(old(stored), entries[..i])
        invariant rows == FreshRows(old(stored), entries[..i])
        invariant messages == old(messages)
      {
        assert entries[..i + 1][..i] == entries[..i];
        var entry := entries[i];
        if entry.key !in stored {
          stored := stored[entry.key := entry.verdict];
          rows := rows + [entry];
        }
        i := i + 1;
      }
      assert entries[..i] == entries;
      if rows != [] {
        messages := messages + [Rows(rows)];
      }
    }

    /** `get`'s second locked section: a put that got in first keeps its verdict. */
    method Remember(key: CacheKey, committed: CachedValue) returns (answer: CachedValue)
      modifies this`stored
      ensures stored == old(stored) + (map[key := committed] - old(stored).Keys)
      ensures key in stored && answer == stored[key]
    {
      if key !in stored {
        stored := stored[key := committed];
      }
      answer := stored[key];
    }

    /** `get` with nobody else at work: the map, else the file, and what was told is remembered. */
    method Get(connection: Connection, key: CacheKey, readable: bool) returns (answer: Option<CachedValue>)
      modifies this`stored
      ensures answer.Some? <==> key in old(stored) || (readable && key in connection.verdicts)
      ensures answer.Some? ==> answer.value == (connection.verdicts + old(stored))[key]
      ensures stored == if answer.Some? then old(stored)[key := answer.value] else old(stored)
    {
      if key in stored {
        return Some(stored[key]);
      }
      var committed := connection.Committed(key, readable);
      if committed.None? {
        return None;
      }
      var told := Remember(key, committed.value);
      return Some(told);
    }

    /**
     Dropping the cache: the channel closes and the writer works through what is in it. What the
     database refuses is lost and nothing else is: the file ends as if the transactions it took had
     come in the order their rows were sent. With nothing refused it holds every row sent, first
     evaluation winning.
     */
    method Drop(connection: Connection, impatient: nat -> bool, refused: Refusals) returns (ghost trace: seq<Event>)
      requires connection as object != this
      modifies this, connection
      ensures messages == [] && Messages(trace) == old(messages)
      ensures connection.verdicts == Replayed(old(connection.verdicts), trace, refused)
      ensures (forall j :: 0 <= j < |trace| ==> refused(j).None?) ==>
        connection.verdicts == FirstWins(old(connection.verdicts), RowsSent(old(messages)))
    {
      var log := WriteLoop(messages, impatient);
      var i := 0;
      assert log[..0] == [];
      while i < |log|
        invariant 0 <= i <= |log|
        invariant connection.verdicts == Replayed(old(connection.verdicts), log[..i], refused)
        invariant messages == old(messages)
      {
        assert log[..i + 1][..i] == log[..i];
        if log[i].Transaction? {
          var conflicts := connection.WriteBatch(Flatten(log[i].groups), refused(i));
        }
        i := i + 1;
      }
      assert log[..i] == log;
      trace := log;
      if forall j :: 0 <= j < |trace| ==> refused(j).None? {
        BatchingDoesNotMatter(old(connection.verdicts), trace, refused);
      }
      messages := [];
    }
  }
}

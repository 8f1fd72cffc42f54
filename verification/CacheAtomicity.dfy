/**
 Groups on disk are whole: whatever the instances, the interleaving, the failed commits
 and the crashes, the file holds none of a group's keys or all of them from one store call.
 */
module CacheAtomicity {
  import opened VerdictCache
  import opened CacheProtocol

  ghost predicate Apart(a: Table, b: Table) {
    forall k :: k in a ==> k !in b
  }

  ghost predicate Within(a: Table, b: Table) {
    forall k :: k in a ==> k in b
  }

  ghost predicate SameKeys(a: Table, b: Table) {
    Within(a, b) && Within(b, a)
  }

  /** Any two groups ever offered share all their keys or none. */
  ghost predicate EqualOrDisjoint(puts: set<Table>) {
    forall p, q {:trigger SameKeys(p, q)} :: p in puts && q in puts ==> SameKeys(p, q) || Apart(p, q)
  }

  ghost predicate Holds(disk: Table, group: Table) {
    forall k :: k in group ==> k in disk && disk[k] == group[k]
  }

  /** None of the group's keys, or all of them with the verdicts of a single store call. */
  ghost predicate Whole(disk: Table, puts: set<Table>, group: Table) {
    Apart(group, disk) || exists q :: q in puts && SameKeys(q, group) && Holds(disk, q)
  }

  ghost predicate Known(puts: set<Table>, k: CacheKey) {
    exists p :: p in puts && k in p
  }

  /** A group not written yet: all of what one call offered, or what is left of it
      when the file already has the whole group. */
  ghost predicate Covered(disk: Table, puts: set<Table>, rows: seq<Row>) {
    exists p :: p in puts && Holds(p, Group(rows)) && (SameKeys(Group(rows), p) || Within(p, disk))
  }

  ghost predicate Waiting(inst: Instance, rows: seq<Row>) {
    || (exists t :: t in inst.calls && inst.calls[t] == Sending(rows))
    || Rows(rows) in inst.channel
    || rows in inst.batch
  }

  ghost predicate DiskInv(disk: Table, puts: set<Table>) {
    && (forall k {:trigger Known(puts, k)} :: k in disk ==> Known(puts, k))
    && (forall p {:trigger Whole(disk, puts, p)} :: p in puts ==> Whole(disk, puts, p))
  }

  /** A map holds part of a group only if the file has all of it. */
  ghost predicate Settled(stored: Table, disk: Table, group: Table) {
    Apart(group, stored) || Within(group, stored) || Within(group, disk)
  }

  ghost predicate InstanceInv(inst: Instance, disk: Table, puts: set<Table>) {
    && (forall k {:trigger Known(puts, k)} :: k in inst.stored ==> Known(puts, k))
    && (forall p {:trigger Settled(inst.stored, disk, p)} :: p in puts ==> Settled(inst.stored, disk, p))
    && (forall rows :: Waiting(inst, rows) ==> Covered(disk, puts, rows))
    && (forall t :: t in inst.calls && inst.calls[t].Loaded? ==> inst.calls[t].found in disk)
  }

  ghost predicate Inv(s: State) {
    && DiskInv(s.disk, s.puts)
    && (forall i :: i in s.instances ==> InstanceInv(s.instances[i], s.disk, s.puts))
  }

  lemma SameGroup(puts: set<Table>, p: Table, q: Table, k: CacheKey)
    requires EqualOrDisjoint(puts) && p in puts && q in puts && k in p && k in q
    ensures SameKeys(p, q)
  {
    assert SameKeys(p, q) || Apart(p, q);
  }

  /** A key in the file brings its whole group with it. */
  lemma DiskHasWholeGroup(disk: Table, puts: set<Table>, p: Table, k: CacheKey)
    requires EqualOrDisjoint(puts) && DiskInv(disk, puts) && p in puts && k in p && k in disk
    ensures Within(p, disk)
  {
    assert Whole(disk, puts, p);
  }

  /** Adding a group the file has nothing of leaves every other group as it was. */
  lemma AddGroup(disk: Table, puts: set<Table>, p: Table, q: Table)
    requires EqualOrDisjoint(puts) && p in puts && q in puts
    requires Apart(p, disk) && Whole(disk, puts, q)
    ensures Whole(p + disk, puts, q)
  {
    if SameKeys(q, p) {
      assert Holds(p + disk, p);
    } else if !Apart(q, disk) {
      var r :| r in puts && SameKeys(r, q) && Holds(disk, r);
      assert Holds(p + disk, r);
    } else {
      assert Apart(q, p);
    }
  }

  /** One group committed to a whole file leaves it whole. */
  lemma CommitGroup(disk: Table, puts: set<Table>, rows: seq<Row>)
    requires EqualOrDisjoint(puts) && DiskInv(disk, puts) && Covered(disk, puts, rows)
    ensures DiskInv(FirstWins(disk, rows), puts)
  {
    FirstWinsIsUnion(disk, rows);
    var p :| p in puts && Holds(p, Group(rows)) && (SameKeys(Group(rows), p) || Within(p, disk));
    if k :| k in p && k in disk {
      DiskHasWholeGroup(disk, puts, p, k);
      assert Within(Group(rows), disk);
      assert Group(rows) + disk == disk;
    } else {
      assert Group(rows) == p;
      forall k | k in p + disk ensures Known(puts, k) {
        assert k in disk || k in p;
      }
      forall q | q in puts ensures Whole(p + disk, puts, q) {
        AddGroup(disk, puts, p, q);
      }
    }
  }

  lemma CoveredLater(disk: Table, after: Table, puts: set<Table>, more: set<Table>, rows: seq<Row>)
    requires Covered(disk, puts, rows) && Within(disk, after) && puts <= more
    ensures Covered(after, more, rows)
  {
    var p :| p in puts && Holds(p, Group(rows)) && (SameKeys(Group(rows), p) || Within(p, disk));
    assert p in more;
  }

  /** A transaction of any number of groups leaves the file whole. */
  lemma {:induction false} CommitGroups(disk: Table, puts: set<Table>, groups: seq<seq<Row>>)
    requires EqualOrDisjoint(puts) && DiskInv(disk, puts)
    requires forall rows :: rows in groups ==> Covered(disk, puts, rows)
    ensures DiskInv(FirstWins(disk, Flatten(groups)), puts)
  {
    if groups != [] {
      var earlier, last := groups[..|groups| - 1], groups[|groups| - 1];
      CommitGroups(disk, puts, earlier);
      FirstWinsAppends(disk, Flatten(earlier), last);
      CoveredLater(disk, FirstWins(disk, Flatten(earlier)), puts, puts, last);
      CommitGroup(FirstWins(disk, Flatten(earlier)), puts, last);
    }
  }

  lemma KnownLater(puts: set<Table>, more: set<Table>, k: CacheKey)
    requires Known(puts, k) && puts <= more
    ensures Known(more, k)
  {
    var p :| p in puts && k in p;
    assert p in more;
  }

  /** A new group sharing a known key is one that was offered before. */
  lemma Earlier(puts: set<Table>, more: set<Table>, p: Table, k: CacheKey) returns (q: Table)
    requires EqualOrDisjoint(more) && puts <= more && p in more && k in p && Known(puts, k)
    ensures q in puts && k in q && SameKeys(p, q)
  {
    q :| q in puts && k in q;
    SameGroup(more, p, q, k);
  }

  /** An instance stays consistent when the file gains rows and others offer groups. */
  lemma InstanceLater(inst: Instance, disk: Table, after: Table, puts: set<Table>, more: set<Table>)
    requires EqualOrDisjoint(more) && puts <= more && Within(disk, after)
    requires InstanceInv(inst, disk, puts)
    ensures InstanceInv(inst, after, more)
  {
    forall k | k in inst.stored ensures Known(more, k) {
      assert Known(puts, k);
      KnownLater(puts, more, k);
    }
    forall p | p in more ensures Settled(inst.stored, after, p) {
      if k :| k in p && k in inst.stored {
        assert Known(puts, k);
        var q := Earlier(puts, more, p, k);
        assert Settled(inst.stored, disk, q);
      }
    }
    forall rows | Waiting(inst, rows) ensures Covered(after, more, rows) {
      CoveredLater(disk, after, puts, more, rows);
    }
  }

  lemma DiskLater(disk: Table, puts: set<Table>, group: Table)
    requires EqualOrDisjoint(puts + {group}) && DiskInv(disk, puts)
    ensures DiskInv(disk, puts + {group})
  {
    var more := puts + {group};
    forall k | k in disk ensures Known(more, k) {
      assert Known(puts, k);
      KnownLater(puts, more, k);
    }
    forall p | p in more ensures Whole(disk, more, p) {
      if k :| k in p && k in disk {
        assert Known(puts, k);
        var q := Earlier(puts, more, p, k);
        assert Whole(disk, puts, q);
        var r :| r in puts && SameKeys(r, q) && Holds(disk, r);
        assert r in more;
      }
    }
  }

  /** What is left of a group after the map took its part out is still covered. */
  lemma FreshRowsCovered(stored: Table, disk: Table, puts: set<Table>, entries: seq<Row>)
    requires Group(entries) in puts && Settled(stored, disk, Group(entries))
    requires FreshRows(stored, entries) != []
    ensures Covered(disk, puts, FreshRows(stored, entries))
  {
    var group, rows := Group(entries), FreshRows(stored, entries);
    FreshRowsAreTheMissingOnes(stored, entries);
    GroupKeys(rows, rows[0].key);
    assert Holds(group, Group(rows));
    if Apart(group, stored) {
      assert Group(rows) == group;
    } else {
      assert rows[0].key in group && rows[0].key !in stored;
    }
  }

  /** Storing a group: part of it may already be in memory, but only if the file has it all. */
  lemma StoreKeepsInstance(inst: Instance, disk: Table, puts: set<Table>, t: nat, entries: seq<Row>)
    requires EqualOrDisjoint(puts) && Group(entries) in puts && t !in inst.calls
    requires InstanceInv(inst, disk, puts)
    ensures
      var rows := FreshRows(inst.stored, entries);
      InstanceInv(inst.(stored := FirstWins(inst.stored, entries),
                        calls := if rows == [] then inst.calls else inst.calls[t := Sending(rows)]),
                  disk, puts)
  {
    var group, rows := Group(entries), FreshRows(inst.stored, entries);
    var after := inst.(stored := FirstWins(inst.stored, entries),
                       calls := if rows == [] then inst.calls else inst.calls[t := Sending(rows)]);
    FirstWinsIsUnion(inst.stored, entries);
    forall k | k in after.stored ensures Known(puts, k) {
      assert k in inst.stored ==> Known(puts, k);
    }
    forall p | p in puts ensures Settled(after.stored, disk, p) {
      assert Settled(inst.stored, disk, p);
      assert SameKeys(p, group) || Apart(p, group);
    }
    forall waiting | Waiting(after, waiting) ensures Covered(disk, puts, waiting) {
      if !Waiting(inst, waiting) {
        assert Settled(inst.stored, disk, group);
        FreshRowsCovered(inst.stored, disk, puts, entries);
      }
    }
  }

  lemma KeepKeepsInstance(inst: Instance, disk: Table, puts: set<Table>, t: nat)
    requires EqualOrDisjoint(puts) && DiskInv(disk, puts) && InstanceInv(inst, disk, puts)
    requires t in inst.calls && inst.calls[t].Loaded?
    ensures
      var Loaded(k, v) := inst.calls[t];
      InstanceInv(inst.(stored := if k in inst.stored then inst.stored else inst.stored[k := v],
                        calls := inst.calls - {t}), disk, puts)
  {
    var Loaded(k, v) := inst.calls[t];
    var after := inst.(stored := if k in inst.stored then inst.stored else inst.stored[k := v], calls := inst.calls - {t});
    assert Known(puts, k);
    forall k' | k' in after.stored ensures Known(puts, k') {
      assert k' in inst.stored ==> Known(puts, k');
    }
    forall p | p in puts ensures Settled(after.stored, disk, p) {
      assert Settled(inst.stored, disk, p);
      if k in p {
        DiskHasWholeGroup(disk, puts, p, k);
      }
    }
    forall rows | Waiting(after, rows) ensures Waiting(inst, rows) {
    }
  }

  lemma StoreKeepsInv(s: State, i: nat, t: nat, entries: seq<Row>)
    requires Enabled(s, Store(i, t, entries))
    requires EqualOrDisjoint(s.puts + {Group(entries)}) && Inv(s)
    ensures Inv(Apply(s, Store(i, t, entries)))
  {
    var s' := Apply(s, Store(i, t, entries));
    DiskLater(s.disk, s.puts, Group(entries));
    forall j | j in s.instances ensures InstanceInv(s.instances[j], s.disk, s'.puts) {
      InstanceLater(s.instances[j], s.disk, s.disk, s.puts, s'.puts);
    }
    StoreKeepsInstance(s.instances[i], s.disk, s'.puts, t, entries);
  }

  lemma CommitKeepsInv(s: State, i: nat, succeeds: bool)
    requires Enabled(s, Commit(i, succeeds)) && EqualOrDisjoint(s.puts) && Inv(s)
    ensures Inv(Apply(s, Commit(i, succeeds)))
  {
    var s', inst := Apply(s, Commit(i, succeeds)), s.instances[i];
    forall rows | rows in inst.batch ensures Covered(s.disk, s.puts, rows) {
      assert Waiting(inst, rows);
    }
    if succeeds {
      CommitGroups(s.disk, s.puts, inst.batch);
    }
    forall rows | Waiting(s'.instances[i], rows) ensures Waiting(inst, rows) {
    }
    forall j | j in s'.instances ensures InstanceInv(s'.instances[j], s'.disk, s.puts) {
      InstanceLater(s'.instances[j], s.disk, s'.disk, s.puts, s.puts);
    }
  }

  /** Steps that only move rows along the way to the file, or look a key up. */
  lemma MoveKeepsInv(s: State, step: Step)
    requires step.Miss? || step.Read? || step.Send? || step.RequestFlush? || step.Take?
    requires Enabled(s, step) && Inv(s)
    ensures Inv(Apply(s, step))
  {
    var inst, after := s.instances[step.i], Apply(s, step).instances[step.i];
    assert Apply(s, step).instances == s.instances[step.i := after];
    assert InstanceInv(inst, s.disk, s.puts);
    forall rows | Waiting(after, rows) ensures Waiting(inst, rows) {
      assert step.Take? ==> inst.channel == [inst.channel[0]] + inst.channel[1..];
    }
    hide DiskInv, Covered, Settled, Known, Group;
    assert InstanceInv(after, s.disk, s.puts);
  }

  /** Every step but tampering with the file keeps every group whole. */
  lemma StepKeepsInv(s: State, step: Step)
    requires !step.Tamper? && Enabled(s, step)
    requires EqualOrDisjoint(Apply(s, step).puts) && Inv(s)
    ensures Inv(Apply(s, step))
  {
    if step.Store? {
      StoreKeepsInv(s, step.i, step.t, step.entries);
    } else if step.Commit? {
      CommitKeepsInv(s, step.i, step.succeeds);
    } else if step.Keep? {
      KeepKeepsInstance(s.instances[step.i], s.disk, s.puts, step.t);
    } else if step.Miss? || step.Read? || step.Send? || step.RequestFlush? || step.Take? {
      MoveKeepsInv(s, step);
    }
  }

  /** The theorem, for every run from an empty file in which nobody else writes to it. */
  lemma {:induction false} GroupsAreWhole(steps: seq<Step>)
    requires forall step :: step in steps ==> !step.Tamper?
    requires EqualOrDisjoint(Exec(Start(map[]), steps).puts)
    ensures Inv(Exec(Start(map[]), steps))
    ensures
      var s := Exec(Start(map[]), steps);
      forall p :: p in s.puts ==> Whole(s.disk, s.puts, p)
  {
    if steps != [] {
      var earlier := steps[..|steps| - 1];
      var before := Exec(Start(map[]), earlier);
      assert before.puts <= Exec(Start(map[]), steps).puts;
      GroupsAreWhole(earlier);
      if Enabled(before, steps[|steps| - 1]) {
        StepKeepsInv(before, steps[|steps| - 1]);
      }
    }
  }
}

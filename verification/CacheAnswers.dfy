/**
 What callers are told. Within one instance a verdict never changes, whatever happens to
 the file; and when one careful instance at a time uses the file, not across reopenings either.
 */
module CacheAnswers {
  import opened VerdictCache
  import opened CacheProtocol
  import opened CacheAtomicity

  // ---- one instance, any file ----

  /** Instance `i` has verdict `v` for `k`, and has never told anyone otherwise. */
  ghost predicate Pinned(s: State, i: nat, k: CacheKey, v: CachedValue) {
    && i < s.nextId
    && (i in s.instances ==> k in s.instances[i].stored && s.instances[i].stored[k] == v)
    && (forall a :: a in s.answers && a.instance == i && a.key == k ==> a.verdict == v)
  }

  ghost predicate AnswersInv(s: State) {
    && (forall i :: i in s.instances ==> i < s.nextId)
    && (forall a :: a in s.answers ==> Pinned(s, a.instance, a.key, a.verdict))
  }

  lemma PinnedStays(s: State, step: Step, i: nat, k: CacheKey, v: CachedValue)
    requires AnswersInv(s) && Pinned(s, i, k, v)
    ensures Pinned(Next(s, step), i, k, v)
  {
  }

  lemma AnswersStep(s: State, step: Step)
    requires AnswersInv(s)
    ensures AnswersInv(Next(s, step))
  {
    var s' := Next(s, step);
    forall a | a in s'.answers ensures Pinned(s', a.instance, a.key, a.verdict) {
      if a in s.answers {
        PinnedStays(s, step, a.instance, a.key, a.verdict);
      } else {
        forall b | b in s.answers && b.instance == a.instance && b.key == a.key
          ensures b.verdict == a.verdict
        {
          assert Pinned(s, b.instance, b.key, b.verdict);
        }
      }
    }
  }

  lemma {:induction false} AnswersHold(disk: Table, steps: seq<Step>)
    ensures AnswersInv(Exec(Start(disk), steps))
  {
    if steps != [] {
      AnswersHold(disk, steps[..|steps| - 1]);
      AnswersStep(Exec(Start(disk), steps[..|steps| - 1]), steps[|steps| - 1]);
    }
  }

  lemma {:induction false} PinnedForever(s: State, steps: seq<Step>, i: nat, k: CacheKey, v: CachedValue)
    requires AnswersInv(s) && Pinned(s, i, k, v)
    ensures AnswersInv(Exec(s, steps)) && Pinned(Exec(s, steps), i, k, v)
  {
    if steps != [] {
      var before, step := Exec(s, steps[..|steps| - 1]), steps[|steps| - 1];
      PinnedForever(s, steps[..|steps| - 1], i, k, v);
      AnswersStep(before, step);
      PinnedStays(before, step, i, k, v);
    }
  }

  /** Once a verdict is in an instance's map - returned by a get or stored by a put - every
      answer that instance ever gives for the key, before or after, is that verdict. */
  lemma InstanceNeverChangesItsMind(disk: Table, before: seq<Step>, after: seq<Step>, i: nat, k: CacheKey)
    requires i in Exec(Start(disk), before).instances && k in Exec(Start(disk), before).instances[i].stored
    ensures Pinned(Exec(Start(disk), before + after), i, k, Exec(Start(disk), before).instances[i].stored[k])
  {
    var s := Exec(Start(disk), before);
    AnswersHold(disk, before);
    forall a | a in s.answers && a.instance == i && a.key == k ensures a.verdict == s.instances[i].stored[k] {
      assert Pinned(s, a.instance, a.key, a.verdict);
    }
    PinnedForever(s, after, i, k, s.instances[i].stored[k]);
    ExecAppends(Start(disk), before, after);
  }

  // ---- one instance at a time, nothing failing ----

  /** The file says nothing else about any row this store is going to send. */
  ghost predicate Agrees(inst: Instance, disk: Table, entries: seq<Row>) {
    var offered := Group(FreshRows(inst.stored, entries));
    forall k :: k in offered && k in disk ==> disk[k] == offered[k]
  }

  /** No other instance, no failed commit or read, no crash. */
  ghost predicate Quiet(s: State, step: Step) {
    match step
    case Open => s.instances == map[]
    case Read(_, _, readable) => readable
    case Commit(_, succeeds) => succeeds
    case Crash(_) => false
    case Tamper(_) => false
    case _ => true
  }

  /** And no put the file disagrees with. */
  ghost predicate Careful(s: State, step: Step) {
    Quiet(s, step) && (step.Store? && step.i in s.instances ==> Agrees(s.instances[step.i], s.disk, step.entries))
  }

  /** And no put without a get that missed. */
  ghost predicate Asking(s: State, step: Step) {
    Quiet(s, step)
    && (step.Store? && step.i in s.instances ==>
          forall j :: 0 <= j < |step.entries| ==> step.entries[j].key in s.instances[step.i].missed)
  }

  ghost predicate AskingRun(s: State, steps: seq<Step>) {
    steps != [] ==>
      && AskingRun(s, steps[..|steps| - 1])
      && Asking(Exec(s, steps[..|steps| - 1]), steps[|steps| - 1])
  }

  ghost predicate CarefulRun(s: State, steps: seq<Step>) {
    steps != [] ==>
      && CarefulRun(s, steps[..|steps| - 1])
      && Careful(Exec(s, steps[..|steps| - 1]), steps[|steps| - 1])
  }

  /** The verdict of every key: the current instance's map over the file. */
  function View(s: State): Table {
    if s.nextId > 0 && s.nextId - 1 in s.instances
    then s.disk + s.instances[s.nextId - 1].stored
    else s.disk
  }

  /** Some group still waiting will take `k` to the file. */
  ghost predicate OnItsWay(inst: Instance, k: CacheKey) {
    exists rows :: Waiting(inst, rows) && k in Group(rows)
  }

  ghost predicate Solid(inst: Instance, disk: Table) {
    // The file never contradicts the map, and lacks only what is still on its way.
    && (forall k :: k in inst.stored && k in disk ==> disk[k] == inst.stored[k])
    && (forall k {:trigger OnItsWay(inst, k)} :: k in inst.stored && k !in disk ==> OnItsWay(inst, k))
    && (forall rows {:trigger Waiting(inst, rows)} :: Waiting(inst, rows) ==> Holds(inst.stored, Group(rows)))
    && (forall k :: k in inst.missed ==> k !in disk || k in inst.stored)
    && (forall t :: t in inst.calls && inst.calls[t].Loaded? ==>
                      inst.calls[t].found in disk && disk[inst.calls[t].found] == inst.calls[t].verdict)
    && (!inst.open ==> inst.calls == map[])
  }

  ghost predicate SoloInv(s: State) {
    && (forall i :: i in s.instances ==> i == s.nextId - 1 && Solid(s.instances[i], s.disk))
    && (forall a :: a in s.answers ==> a.key in View(s) && View(s)[a.key] == a.verdict)
  }

  lemma GroupAppends(a: seq<Row>, b: seq<Row>)
    ensures Group(a + b) == Group(b) + Group(a)
  {
    FirstWinsAppends(map[], a, b);
    FirstWinsIsUnion(Group(a), b);
  }

  /** A batch says what its groups say, and nothing the map does not. */
  lemma {:induction false} BatchSays(stored: Table, groups: seq<seq<Row>>)
    requires forall rows :: rows in groups ==> Holds(stored, Group(rows))
    ensures Holds(stored, Group(Flatten(groups)))
    ensures forall rows, k :: rows in groups && k in Group(rows) ==> k in Group(Flatten(groups))
  {
    if groups != [] {
      BatchSays(stored, groups[..|groups| - 1]);
      GroupAppends(Flatten(groups[..|groups| - 1]), groups[|groups| - 1]);
      assert groups == groups[..|groups| - 1] + [groups[|groups| - 1]];
    }
  }

  lemma CommitKeepsWaiting(inst: Instance, after: Instance, disk: Table, k: CacheKey)
    requires after.calls == inst.calls && after.channel == inst.channel && after.batch == []
    requires forall rows :: rows in inst.batch ==> Holds(inst.stored, Group(rows))
    requires OnItsWay(inst, k) && k !in FirstWins(disk, Flatten(inst.batch))
    ensures OnItsWay(after, k)
  {
    BatchSays(inst.stored, inst.batch);
    FirstWinsIsUnion(disk, Flatten(inst.batch));
    var rows :| Waiting(inst, rows) && k in Group(rows);
    assert Waiting(after, rows);
  }

  /** What a commit adds to the file, the map already says. */
  lemma CommitAdds(inst: Instance, disk: Table, after: Table)
    requires Solid(inst, disk) && after == FirstWins(disk, Flatten(inst.batch))
    ensures Holds(after, disk) && after + inst.stored == disk + inst.stored
    ensures forall k :: k in after && k !in disk ==> k in inst.stored && after[k] == inst.stored[k]
  {
    forall rows | rows in inst.batch ensures Holds(inst.stored, Group(rows)) {
      assert Waiting(inst, rows);
    }
    BatchSays(inst.stored, inst.batch);
    FirstWinsIsUnion(disk, Flatten(inst.batch));
  }

  lemma CommitKeepsSolid(inst: Instance, disk: Table)
    requires Solid(inst, disk)
    ensures
      var disk' := FirstWins(disk, Flatten(inst.batch));
      && Solid(inst.(batch := [], trace := inst.trace + [Transaction(inst.batch)]), disk')
      && disk' + inst.stored == disk + inst.stored
  {
    var after := inst.(batch := [], trace := inst.trace + [Transaction(inst.batch)]);
    var disk' := FirstWins(disk, Flatten(inst.batch));
    CommitAdds(inst, disk, disk');
    forall rows | rows in inst.batch ensures Holds(inst.stored, Group(rows)) {
      assert Waiting(inst, rows);
    }
    hide FirstWins, Flatten;
    forall k | k in inst.stored && k !in disk' ensures OnItsWay(after, k) {
      assert OnItsWay(inst, k);
      CommitKeepsWaiting(inst, after, disk, k);
    }
    forall rows | Waiting(after, rows) ensures Waiting(inst, rows) {
    }
  }

  lemma UnionOfRest(group: Table, stored: Table)
    ensures group + stored == stored + (group - stored.Keys)
  {
  }

  lemma StoreAddsFreshRows(stored: Table, entries: seq<Row>)
    ensures FirstWins(stored, entries) == stored + Group(FreshRows(stored, entries))
    ensures forall k :: k in Group(FreshRows(stored, entries)) ==> k !in stored && Names(entries, k)
  {
    FirstWinsIsUnion(stored, entries);
    FreshRowsAreTheMissingOnes(stored, entries);
    UnionOfRest(Group(entries), stored);
    forall k | k in Group(FreshRows(stored, entries)) ensures k !in stored && Names(entries, k) {
      GroupKeys(entries, k);
    }
  }

  lemma StillWaiting(inst: Instance, after: Instance, t: nat, rows: seq<Row>)
    requires Waiting(inst, rows) && t !in inst.calls
    requires after.channel == inst.channel && after.batch == inst.batch
    requires forall u :: u in inst.calls ==> u in after.calls && after.calls[u] == inst.calls[u]
    ensures Waiting(after, rows)
  {
    if u :| u in inst.calls && inst.calls[u] == Sending(rows) {
      assert u in after.calls;
    }
  }

  lemma AddKeepsCovered(inst: Instance, after: Instance, t: nat, rows: seq<Row>, k: CacheKey)
    requires t !in inst.calls && after == inst.(stored := inst.stored + Group(rows), calls := inst.calls[t := Sending(rows)])
    requires k in after.stored && (k in inst.stored ==> OnItsWay(inst, k))
    ensures OnItsWay(after, k)
  {
    assert after.calls[t] == Sending(rows);
    if k in inst.stored {
      var waiting :| Waiting(inst, waiting) && k in Group(waiting);
      StillWaiting(inst, after, t, waiting);
    } else {
      assert Waiting(after, rows);
    }
  }

  lemma AddKeepsHeld(inst: Instance, after: Instance, t: nat, rows: seq<Row>, waiting: seq<Row>)
    requires t !in inst.calls && after == inst.(stored := inst.stored + Group(rows), calls := inst.calls[t := Sending(rows)])
    requires forall k :: k in Group(rows) ==> k !in inst.stored
    requires Waiting(after, waiting) && (Waiting(inst, waiting) ==> Holds(inst.stored, Group(waiting)))
    ensures Holds(after.stored, Group(waiting))
  {
    if waiting != rows {
      if u :| u in after.calls && after.calls[u] == Sending(waiting) {
        assert u in inst.calls && inst.calls[u] == Sending(waiting);
      }
    }
  }

  lemma AddKeepsSolid(inst: Instance, disk: Table, t: nat, rows: seq<Row>)
    requires Solid(inst, disk) && inst.open && t !in inst.calls
    requires forall k :: k in Group(rows) ==> k !in inst.stored && (k in disk ==> disk[k] == Group(rows)[k])
    ensures Solid(inst.(stored := inst.stored + Group(rows), calls := inst.calls[t := Sending(rows)]), disk)
  {
    var after := inst.(stored := inst.stored + Group(rows), calls := inst.calls[t := Sending(rows)]);
    forall k | k in after.stored && k !in disk ensures OnItsWay(after, k) {
      assert k in inst.stored ==> OnItsWay(inst, k);
      AddKeepsCovered(inst, after, t, rows, k);
    }
    forall waiting | Waiting(after, waiting) ensures Holds(after.stored, Group(waiting)) {
      AddKeepsHeld(inst, after, t, rows, waiting);
    }
  }

  lemma AddOrNothing(inst: Instance, disk: Table, t: nat, rows: seq<Row>, stored: Table)
    requires Solid(inst, disk) && inst.open && t !in inst.calls
    requires stored == inst.stored + Group(rows)
    requires forall k :: k in Group(rows) ==> k !in inst.stored && (k in disk ==> disk[k] == Group(rows)[k])
    ensures Solid(inst.(stored := stored, calls := if rows == [] then inst.calls else inst.calls[t := Sending(rows)]), disk)
  {
    if rows == [] {
      assert Group(rows) == map[];
      assert inst.(stored := stored) == inst;
    } else {
      AddKeepsSolid(inst, disk, t, rows);
    }
  }

  lemma StoreKeepsSolid(inst: Instance, disk: Table, t: nat, entries: seq<Row>)
    requires Solid(inst, disk) && inst.open && t !in inst.calls && Agrees(inst, disk, entries)
    ensures
      var rows := FreshRows(inst.stored, entries);
      Solid(inst.(stored := FirstWins(inst.stored, entries),
                  calls := if rows == [] then inst.calls else inst.calls[t := Sending(rows)]), disk)
  {
    assert forall k :: k in Group(FreshRows(inst.stored, entries)) && k in disk ==> disk[k] == Group(FreshRows(inst.stored, entries))[k];
    hide Solid, FirstWins, FreshRows, Group;
    StoreAddsFreshRows(inst.stored, entries);
    AddOrNothing(inst, disk, t, FreshRows(inst.stored, entries), FirstWins(inst.stored, entries));
  }

  /** Steps that only move rows along the way to disk, or read. */
  lemma MoveKeepsSolid(inst: Instance, after: Instance, disk: Table)
    requires Solid(inst, disk)
    requires after.stored == inst.stored && (!after.open ==> after.calls == map[])
    requires forall k :: k in after.missed ==> k in inst.missed || k !in disk
    requires forall rows :: Waiting(after, rows) <==> Waiting(inst, rows)
    requires forall t :: t in after.calls && after.calls[t].Loaded? ==>
      after.calls[t].found in disk && disk[after.calls[t].found] == after.calls[t].verdict
    ensures Solid(after, disk)
  {
    forall k | k in after.stored && k !in disk ensures OnItsWay(after, k) {
      assert OnItsWay(inst, k);
      var rows :| Waiting(inst, rows) && k in Group(rows);
      assert Waiting(after, rows);
    }
  }

  lemma TakeKeepsWaiting(inst: Instance, after: Instance, rows: seq<Row>)
    requires inst.channel != [] && after.calls == inst.calls && after.channel == inst.channel[1..]
    requires after.batch == match inst.channel[0] case Rows(taken) => inst.batch + [taken] case Flush(_) => inst.batch
    ensures Waiting(after, rows) <==> Waiting(inst, rows)
  {
    assert inst.channel == [inst.channel[0]] + after.channel;
    if Rows(rows) in inst.channel {
      assert Rows(rows) == inst.channel[0] || Rows(rows) in after.channel;
    }
  }

  lemma SendKeepsWaiting(inst: Instance, after: Instance, t: nat, rows: seq<Row>)
    requires t in inst.calls && inst.calls[t].Sending? && after.calls == inst.calls - {t}
    requires after.channel == inst.channel + [Rows(inst.calls[t].rows)] && after.batch == inst.batch
    ensures Waiting(after, rows) <==> Waiting(inst, rows)
  {
    if u :| u in inst.calls && inst.calls[u] == Sending(rows) {
      assert u != t ==> u in after.calls && after.calls[u] == Sending(rows);
    }
    if u :| u in after.calls && after.calls[u] == Sending(rows) {
      assert u in inst.calls;
    }
  }

  lemma WaitingElsewhere(inst: Instance, after: Instance, t: nat, rows: seq<Row>)
    requires t in inst.calls && !inst.calls[t].Sending?
    requires after.channel == inst.channel && after.batch == inst.batch
    requires after.calls == inst.calls - {t} || (t in after.calls && after.calls - {t} == inst.calls - {t} && !after.calls[t].Sending?)
    ensures Waiting(after, rows) <==> Waiting(inst, rows)
  {
    if u :| u in inst.calls && inst.calls[u] == Sending(rows) {
      assert u in inst.calls - {t};
      assert after.calls[u] == Sending(rows);
    }
    if u :| u in after.calls && after.calls[u] == Sending(rows) {
      assert u in after.calls - {t};
      assert inst.calls[u] == Sending(rows);
    }
  }

  lemma ReadKeepsSolid(s: State, i: nat, t: nat)
    requires SoloInv(s) && Enabled(s, Read(i, t, true))
    ensures SoloInv(Apply(s, Read(i, t, true)))
    ensures View(Apply(s, Read(i, t, true))) == View(s)
  {
    var inst, after := s.instances[i], Apply(s, Read(i, t, true)).instances[i];
    forall rows ensures Waiting(after, rows) <==> Waiting(inst, rows) {
      WaitingElsewhere(inst, after, t, rows);
    }
    MoveKeepsSolid(inst, after, s.disk);
  }

  lemma KeepSolid(inst: Instance, after: Instance, disk: Table, t: nat, k: CacheKey, v: CachedValue)
    requires Solid(inst, disk) && t in inst.calls && inst.calls[t] == Loaded(k, v)
    requires after == inst.(stored := if k in inst.stored then inst.stored else inst.stored[k := v], calls := inst.calls - {t})
    ensures Solid(after, disk) && disk + after.stored == disk + inst.stored
  {
    forall rows ensures Waiting(after, rows) <==> Waiting(inst, rows) {
      WaitingElsewhere(inst, after, t, rows);
    }
    forall k' | k' in after.stored && k' !in disk ensures OnItsWay(after, k') {
      assert OnItsWay(inst, k');
      var rows :| Waiting(inst, rows) && k' in Group(rows);
      assert Waiting(after, rows);
    }
  }

  /** An answer taken from the view. */
  lemma AnswerFromView(s: State, a: Answer)
    requires SoloInv(s) && a.key in View(s) && View(s)[a.key] == a.verdict
    ensures SoloInv(s.(answers := s.answers + {a})) && View(s.(answers := s.answers + {a})) == View(s)
  {
  }

  /** Replacing the current instance by one that is still solid and forgets nothing. */
  lemma Replace(s: State, i: nat, after: Instance, puts: set<Table>)
    requires SoloInv(s) && i in s.instances && Solid(after, s.disk)
    requires Holds(s.disk + after.stored, s.disk + s.instances[i].stored)
    ensures
      var s' := With(s, i, after).(puts := puts);
      && SoloInv(s') && Holds(View(s'), View(s))
      && View(s') == s.disk + after.stored && View(s) == s.disk + s.instances[i].stored
  {
    var s' := With(s, i, after).(puts := puts);
    assert View(s') == s.disk + after.stored && View(s) == s.disk + s.instances[i].stored;
  }

  lemma KeepKeepsSolid(s: State, i: nat, t: nat)
    requires SoloInv(s) && Enabled(s, Keep(i, t))
    ensures SoloInv(Apply(s, Keep(i, t)))
    ensures View(Apply(s, Keep(i, t))) == View(s)
  {
    var inst, s' := s.instances[i], Apply(s, Keep(i, t));
    var after := s'.instances[i];
    var Loaded(k, v) := inst.calls[t];
    KeepSolid(inst, after, s.disk, t, k, v);
    Replace(s, i, after, s.puts);
    assert With(s, i, after).(puts := s.puts) == With(s, i, after);
    AnswerFromView(With(s, i, after), Answer(i, k, after.stored[k]));
  }

  lemma StoreOnlyAdds(inst: Instance, disk: Table, entries: seq<Row>)
    requires Agrees(inst, disk, entries)
    ensures Holds(disk + FirstWins(inst.stored, entries), disk + inst.stored)
  {
    StoreAddsFreshRows(inst.stored, entries);
  }

  lemma CarefulStore(s: State, i: nat, t: nat, entries: seq<Row>)
    requires SoloInv(s) && Careful(s, Store(i, t, entries)) && Enabled(s, Store(i, t, entries))
    ensures SoloInv(Apply(s, Store(i, t, entries)))
    ensures Holds(View(Apply(s, Store(i, t, entries))), View(s))
  {
    var inst, s' := s.instances[i], Apply(s, Store(i, t, entries));
    var after := s'.instances[i];
    assert Solid(after, s.disk) && Holds(s.disk + after.stored, s.disk + inst.stored) by {
      StoreKeepsSolid(inst, s.disk, t, entries);
      StoreOnlyAdds(inst, s.disk, entries);
    }
    assert s' == With(s, i, after).(puts := s'.puts);
    Replace(s, i, after, s'.puts);
  }

  /** The current instance and the file change, but not what they say together. */
  lemma SayTheSame(s: State, s': State, i: nat, after: Instance)
    requires SoloInv(s) && i in s.instances && Solid(after, s'.disk)
    requires s'.instances == s.instances[i := after] && s'.nextId == s.nextId && s'.answers == s.answers
    requires s'.disk + after.stored == s.disk + s.instances[i].stored
    ensures SoloInv(s') && View(s') == View(s)
  {
    hide Solid;
    assert i == s.nextId - 1;
    assert View(s') == s'.disk + after.stored && View(s) == s.disk + s.instances[i].stored;
  }

  lemma CarefulCommit(s: State, i: nat)
    requires SoloInv(s) && Enabled(s, Commit(i, true))
    ensures SoloInv(Apply(s, Commit(i, true))) && View(Apply(s, Commit(i, true))) == View(s)
  {
    var s' := Apply(s, Commit(i, true));
    CommitKeepsSolid(s.instances[i], s.disk);
    SayTheSame(s, s', i, s'.instances[i]);
  }

  lemma CarefulExit(s: State, i: nat)
    requires SoloInv(s) && Enabled(s, Exit(i))
    ensures SoloInv(Apply(s, Exit(i))) && View(Apply(s, Exit(i))) == View(s)
  {
    var inst := s.instances[i];
    assert forall rows :: !Waiting(inst, rows);
    forall k | k in inst.stored ensures k in s.disk && s.disk[k] == inst.stored[k] {
      assert OnItsWay(inst, k) ==> k in s.disk;
    }
    assert s.disk + inst.stored == s.disk;
  }

  lemma CarefulMove(s: State, step: Step)
    requires SoloInv(s) && Enabled(s, step)
    requires step.Miss? || step.Send? || step.Take? || step.RequestFlush? || step.Reply? || step.Close?
    ensures SoloInv(Apply(s, step)) && View(Apply(s, step)) == View(s)
  {
    hide View;
    var i := step.i;
    var inst, after := s.instances[i], Apply(s, step).instances[i];
    forall rows ensures Waiting(after, rows) <==> Waiting(inst, rows) {
      match step
      case Take(_) => TakeKeepsWaiting(inst, after, rows);
      case Send(_, t) => SendKeepsWaiting(inst, after, t, rows);
      case Miss(_, t, k) =>
        if Waiting(inst, rows) {
          StillWaiting(inst, after, t, rows);
        }
      case _ =>
    }
    MoveKeepsSolid(inst, after, s.disk);
    Replace(s, i, after, s.puts);
  }

  lemma CarefulOpen(s: State)
    requires SoloInv(s) && s.instances == map[]
    ensures SoloInv(Apply(s, Open)) && View(Apply(s, Open)) == View(s)
  {
    assert s.disk + NEW_INSTANCE.stored == s.disk;
    assert forall rows :: !Waiting(NEW_INSTANCE, rows);
  }

  lemma CarefulHit(s: State, i: nat, k: CacheKey)
    requires SoloInv(s) && Enabled(s, Hit(i, k))
    ensures SoloInv(Apply(s, Hit(i, k))) && View(Apply(s, Hit(i, k))) == View(s)
  {
    AnswerFromView(s, Answer(i, k, s.instances[i].stored[k]));
  }

  /** A careful step keeps everything answered so far true of the view, and only a store
      adds to the view. */
  lemma CarefulStep(s: State, step: Step)
    requires SoloInv(s) && Careful(s, step)
    ensures SoloInv(Next(s, step))
    ensures Holds(View(Next(s, step)), View(s))
    ensures !step.Store? ==> View(Next(s, step)) == View(s)
  {
    hide SoloInv, View, Apply;
    if Enabled(s, step) {
      match step
      case Open => CarefulOpen(s);
      case Hit(i, k) => CarefulHit(s, i, k);
      case Read(i, t, _) => ReadKeepsSolid(s, i, t);
      case Keep(i, t) => KeepKeepsSolid(s, i, t);
      case Store(i, t, entries) => CarefulStore(s, i, t, entries);
      case Commit(i, _) => CarefulCommit(s, i);
      case Exit(i) => CarefulExit(s, i);
      case _ => CarefulMove(s, step);
    }
  }

  /** After a get that missed, the file cannot disagree. */
  lemma MissedGetAgrees(inst: Instance, disk: Table, entries: seq<Row>)
    requires Solid(inst, disk) && forall j :: 0 <= j < |entries| ==> entries[j].key in inst.missed
    ensures Agrees(inst, disk, entries)
  {
    StoreAddsFreshRows(inst.stored, entries);
  }

  lemma {:induction false} CarefulRunHolds(disk: Table, steps: seq<Step>)
    requires CarefulRun(Start(disk), steps)
    ensures SoloInv(Exec(Start(disk), steps))
  {
    if steps != [] {
      CarefulRunHolds(disk, steps[..|steps| - 1]);
      CarefulStep(Exec(Start(disk), steps[..|steps| - 1]), steps[|steps| - 1]);
    }
  }

  /** Puts that follow a missed get are careful ones. */
  lemma {:induction false} AskingRunIsCareful(disk: Table, steps: seq<Step>)
    requires AskingRun(Start(disk), steps)
    ensures CarefulRun(Start(disk), steps)
  {
    if steps != [] {
      var earlier, step := steps[..|steps| - 1], steps[|steps| - 1];
      var before := Exec(Start(disk), earlier);
      AskingRunIsCareful(disk, earlier);
      CarefulRunHolds(disk, earlier);
      if step.Store? && step.i in before.instances {
        MissedGetAgrees(before.instances[step.i], before.disk, step.entries);
      }
    }
  }

  /** Drop and reopen as often as you like: no answer changes. Every verdict of an earlier
      state is the verdict of every later one, nothing but a store adds a verdict, and any
      two answers ever given for one key - by whichever instance - agree. */
  lemma {:induction false} ReopeningChangesNoAnswer(disk: Table, before: seq<Step>, after: seq<Step>)
    requires CarefulRun(Start(disk), before + after)
    ensures
      var s, s' := Exec(Start(disk), before), Exec(Start(disk), before + after);
      && Holds(View(s'), View(s))
      && ((forall step :: step in after ==> !step.Store?) ==> View(s') == View(s))
      && (forall a, b :: a in s'.answers && b in s'.answers && a.key == b.key ==> a.verdict == b.verdict)
  {
    CarefulRunHolds(disk, before + after);
    if after == [] {
      assert before + after == before;
    } else {
      var earlier := after[..|after| - 1];
      assert (before + after)[..|before + after| - 1] == before + earlier;
      ReopeningChangesNoAnswer(disk, before, earlier);
      CarefulRunHolds(disk, before + earlier);
      CarefulStep(Exec(Start(disk), before + earlier), after[|after| - 1]);
    }
  }

  /** A get nobody interrupts returns the view: the three sections of `get` in a row. */
  lemma QuietGetReadsTheView(s: State, i: nat, t: nat, k: CacheKey)
    requires SoloInv(s) && i in s.instances && s.instances[i].open && t !in s.instances[i].calls
    ensures
      var s' := Next(Next(Next(Next(s, Hit(i, k)), Miss(i, t, k)), Read(i, t, true)), Keep(i, t));
      && (k in View(s) ==> Answer(i, k, View(s)[k]) in s'.answers)
      && (k !in View(s) ==> s'.answers == s.answers && k in s'.instances[i].missed)
  {
  }

  // ---- why a put must follow a missed get ----

  /** An instance that stored `w` for `k`, its rows not yet sent, over a file holding `v`. */
  function StoredWithoutAsking(k: CacheKey, v: CachedValue, w: CachedValue): State {
    var inst := NEW_INSTANCE.(stored := map[k := w], calls := map[0 := Sending([Row(k, w)])]);
    State(map[k := v], map[0 := inst], 1, {map[k := w]}, {})
  }

  lemma OneRow(table: Table, row: Row)
    ensures FirstWins(table, [row]) == if row.key in table then table else table[row.key := row.verdict]
    ensures FreshRows(table, [row]) == if row.key in table then [] else [row]
    ensures Flatten([[row]]) == [row]
  {
    assert [row][..0] == [];
    var groups := [[row]];
    assert groups[..0] == [];
  }

  lemma Exec2(s: State, a: Step, b: Step)
    ensures Exec(s, [a, b]) == Next(Next(s, a), b)
  {
    assert [a, b][..1] == [a] && [a][..0] == [];
    assert Exec(s, [a]) == Next(s, a);
  }

  lemma StoringWithoutAsking(k: CacheKey, v: CachedValue, w: CachedValue)
    ensures Exec(Start(map[k := v]), [Open, Store(0, 0, [Row(k, w)])]) == StoredWithoutAsking(k, v, w)
  {
    OneRow(map[], Row(k, w));
    Exec2(Start(map[k := v]), Open, Store(0, 0, [Row(k, w)]));
    var first := Next(Start(map[k := v]), Open);
    assert first == State(map[k := v], map[0 := NEW_INSTANCE], 1, {}, {});
  }

  lemma SendAndTake(k: CacheKey, v: CachedValue, w: CachedValue)
    ensures
      var s, rows := StoredWithoutAsking(k, v, w), [Row(k, w)];
      Exec(s, [Send(0, 0), Take(0)]) ==
      s.(instances := map[0 := NEW_INSTANCE.(stored := map[k := w], sent := [Rows(rows)], batch := [rows])])
  {
    var s, rows := StoredWithoutAsking(k, v, w), [Row(k, w)];
    var inst := NEW_INSTANCE.(stored := map[k := w], sent := [Rows(rows)]);
    var sent := s.(instances := map[0 := inst.(channel := [Rows(rows)])]);
    assert Next(s, Send(0, 0)) == sent by {
      assert s.instances[0].calls - {0} == map[];
      assert [] + [Rows(rows)] == [Rows(rows)];
    }
    assert Next(sent, Take(0)) == s.(instances := map[0 := inst.(batch := [rows])]) by {
      assert RowCount([]) == 0 && [] + [rows] == [rows];
      assert sent.instances[0].channel[1..] == [];
    }
    hide Next;
    Exec2(s, Send(0, 0), Take(0));
  }

  lemma CommitAndClose(s: State, inst: Instance, k: CacheKey, w: CachedValue)
    requires s.instances == map[0 := inst] && inst.batch == [[Row(k, w)]] && inst.open && inst.calls == map[]
    requires k in s.disk
    ensures
      Exec(s, [Commit(0, true), Close(0)]) ==
      s.(instances := map[0 := inst.(batch := [], open := false, trace := inst.trace + [Transaction(inst.batch)])])
  {
    OneRow(s.disk, Row(k, w));
    Exec2(s, Commit(0, true), Close(0));
    var after := inst.(batch := [], trace := inst.trace + [Transaction(inst.batch)]);
    assert Next(s, Commit(0, true)) == s.(instances := map[0 := after]);
  }

  /** A put that skips the get answers one way for the life of the instance and another way after a
      reopening: the file keeps the verdict it had. */
  lemma PutWithoutGetCanChangeAfterReopening(k: CacheKey, v: CachedValue, w: CachedValue)
    ensures View(Exec(Start(map[k := v]), [Open, Store(0, 0, [Row(k, w)])])) == map[k := w]
    ensures
      var taken := Exec(StoredWithoutAsking(k, v, w), [Send(0, 0), Take(0)]);
      View(Exec(Exec(taken, [Commit(0, true), Close(0)]), [Exit(0), Open])) == map[k := v]
  {
    StoringWithoutAsking(k, v, w);
    SendAndTake(k, v, w);
    var taken := Exec(StoredWithoutAsking(k, v, w), [Send(0, 0), Take(0)]);
    CommitAndClose(taken, taken.instances[0], k, w);
    Exec2(Exec(taken, [Commit(0, true), Close(0)]), Exit(0), Open);
  }
}

/**
 When a put is safe across a reopening: exactly when the file does not already say otherwise about
 a row the put is going to send.
 */
module CacheReopening {
  import opened VerdictCache
  import opened CacheProtocol
  import opened CacheAtomicity
  import opened CacheAnswers
  import opened CacheTracking
  import opened CacheFlush

  lemma {:induction false} CarefulAppends(s: State, a: seq<Step>, b: seq<Step>)
    requires CarefulRun(s, a) && CarefulRun(Exec(s, a), b)
    ensures CarefulRun(s, a + b)
  {
    if b == [] {
      assert a + b == a;
    } else {
      var earlier := b[..|b| - 1];
      assert (a + b)[..|a + b| - 1] == a + earlier;
      CarefulAppends(s, a, earlier);
      ExecAppends(s, a, earlier);
    }
  }

  lemma CarefulOne(s: State, step: Step)
    requires Careful(s, step)
    ensures CarefulRun(s, [step]) && Exec(s, [step]) == Next(s, step)
  {
    assert [step][..0] == [];
  }

  lemma {:induction false} WriterIsCareful(s: State, steps: seq<Step>, i: nat)
    requires WriterSteps(steps, i)
    ensures CarefulRun(s, steps)
  {
    if steps != [] {
      WriterIsCareful(s, steps[..|steps| - 1], i);
    }
  }

  // ---- careful from here on ----

  lemma HoldsTrans(a: Table, b: Table, c: Table)
    requires Holds(a, b) && Holds(b, c)
    ensures Holds(a, c)
  {
  }

  lemma {:induction false} ViewOnlyGrows(s: State, steps: seq<Step>)
    requires SoloInv(s) && CarefulRun(s, steps)
    ensures SoloInv(Exec(s, steps)) && Holds(View(Exec(s, steps)), View(s))
  {
    if steps != [] {
      ViewOnlyGrows(s, steps[..|steps| - 1]);
      hide SoloInv, View;
      CarefulStep(Exec(s, steps[..|steps| - 1]), steps[|steps| - 1]);
      HoldsTrans(View(Exec(s, steps)), View(Exec(s, steps[..|steps| - 1])), View(s));
    }
  }

  // ---- finishing what is in progress, and reopening ----

  /** One instance, and nobody else. */
  ghost predicate Only(s: State, i: nat) {
    s.instances.Keys == {i} && i < s.nextId
  }

  /** What a call in progress does next. */
  function Advance(inst: Instance, i: nat, t: nat): Step
    requires t in inst.calls
  {
    match inst.calls[t]
    case Reading(_) => Read(i, t, true)
    case Loaded(_, _) => Keep(i, t)
    case Sending(_) => Send(i, t)
  }

  function Left(call: Call): nat {
    if call.Reading? then 2 else 1
  }

  ghost predicate FileKeeps(s: State, after: State) {
    forall k :: k in s.disk ==> k in after.disk && after.disk[k] == s.disk[k]
  }

  lemma AdvanceWorks(s: State, i: nat, t: nat)
    requires Only(s, i) && t in s.instances[i].calls
    ensures
      var inst := s.instances[i];
      var step := Advance(inst, i, t);
      && Enabled(s, step) && Careful(s, step) && Only(Apply(s, step), i) && Apply(s, step).disk == s.disk
      && Apply(s, step).instances[i].open == inst.open
      && var calls := Apply(s, step).instances[i].calls;
         calls == inst.calls - {t} || (t in calls && calls - {t} == inst.calls - {t} && Left(calls[t]) < Left(inst.calls[t]))
  {
    var inst, after := s.instances[i], Apply(s, Advance(s.instances[i], i, t));
    assert after.instances.Keys == {i};
    assert t in after.instances[i].calls ==> after.instances[i].calls - {t} == inst.calls - {t};
  }

  /** One call runs to its end. */
  lemma {:induction false} FinishCall(s: State, i: nat, t: nat) returns (steps: seq<Step>)
    requires Only(s, i) && t in s.instances[i].calls
    ensures CarefulRun(s, steps) && Only(Exec(s, steps), i) && Exec(s, steps).disk == s.disk
    ensures Exec(s, steps).instances[i].open == s.instances[i].open && Exec(s, steps).instances[i].calls == s.instances[i].calls - {t}
    decreases Left(s.instances[i].calls[t])
  {
    var step := Advance(s.instances[i], i, t);
    AdvanceWorks(s, i, t);
    hide Careful, Apply;
    CarefulOne(s, step);
    var s' := Next(s, step);
    steps := [step];
    if t in s'.instances[i].calls {
      var rest := FinishCall(s', i, t);
      steps := [step] + rest;
      CarefulAppends(s, [step], rest);
      ExecAppends(s, [step], rest);
    }
  }

  lemma {:induction false} FinishCalls(s: State, i: nat) returns (steps: seq<Step>)
    requires Only(s, i)
    ensures CarefulRun(s, steps) && Only(Exec(s, steps), i) && Exec(s, steps).disk == s.disk
    ensures Exec(s, steps).instances[i].open == s.instances[i].open && Exec(s, steps).instances[i].calls == map[]
    decreases |s.instances[i].calls|
  {
    steps := [];
    if s.instances[i].calls != map[] {
      var t :| t in s.instances[i].calls;
      var first := FinishCall(s, i, t);
      assert |s.instances[i].calls - {t}| < |s.instances[i].calls|;
      var rest := FinishCalls(Exec(s, first), i);
      steps := first + rest;
      CarefulAppends(s, first, rest);
      ExecAppends(s, first, rest);
    }
  }

  lemma {:induction false} FileKeepsVerdicts(s: State, steps: seq<Step>)
    requires CarefulRun(s, steps)
    ensures FileKeeps(s, Exec(s, steps))
  {
    if steps != [] {
      FileKeepsVerdicts(s, steps[..|steps| - 1]);
    }
  }

  /** Dropping an instance with nothing left to do, and opening another. */
  lemma DropAndOpen(s: State, i: nat) returns (steps: seq<Step>)
    requires Only(s, i) && s.instances[i].open && s.instances[i].calls == map[] && Backlog(s.instances[i]) == []
    ensures CarefulRun(s, steps) && View(Exec(s, steps)) == s.disk
  {
    var closed := Next(s, Close(i));
    assert s.instances == map[i := s.instances[i]];
    assert s.instances[i].channel == [] && s.instances[i].batch == [] && s.instances[i].flush.None?;
    assert closed == s.(instances := map[i := s.instances[i].(open := false)]);
    var gone := Next(closed, Exit(i));
    assert gone == s.(instances := map[]);
    var anew := Next(gone, Open);
    assert anew == s.(instances := map[s.nextId := NEW_INSTANCE], nextId := s.nextId + 1);
    assert s.disk + NEW_INSTANCE.stored == s.disk;
    hide Next, Exec;
    CarefulOne(s, Close(i));
    CarefulOne(closed, Exit(i));
    CarefulOne(gone, Open);
    CarefulAppends(s, [Close(i)], [Exit(i)]);
    ExecAppends(s, [Close(i)], [Exit(i)]);
    CarefulAppends(s, [Close(i)] + [Exit(i)], [Open]);
    ExecAppends(s, [Close(i)] + [Exit(i)], [Open]);
    steps := [Close(i)] + [Exit(i)] + [Open];
  }

  /** From any state with one open instance: finish everything, drop it, open another. Nothing
      the file said is forgotten. */
  lemma Reopen(s: State, i: nat) returns (steps: seq<Step>)
    requires Only(s, i) && s.instances[i].open
    ensures CarefulRun(s, steps)
    ensures forall k :: k in s.disk ==> k in View(Exec(s, steps)) && View(Exec(s, steps))[k] == s.disk[k]
  {
    var finish := FinishCalls(s, i);
    var idle := Exec(s, finish);
    var drain := Drain(idle, i);
    var drained := Exec(idle, drain);
    WriterIsCareful(idle, drain, i);
    var reopen := DropAndOpen(drained, i);
    CarefulAppends(s, finish, drain);
    ExecAppends(s, finish, drain);
    CarefulAppends(s, finish + drain, reopen);
    ExecAppends(s, finish + drain, reopen);
    steps := finish + drain + reopen;
    FileKeepsVerdicts(s, finish + drain);
  }

  lemma PutState(s: State, i: nat, t: nat, entries: seq<Row>)
    requires Enabled(s, Store(i, t, entries))
    ensures
      var put := Apply(s, Store(i, t, entries));
      && put.disk == s.disk && put.nextId == s.nextId && put.instances.Keys == s.instances.Keys
      && put.instances[i].stored == FirstWins(s.instances[i].stored, entries) && put.instances[i].open
  {
    hide FirstWins, FreshRows;
    assert Apply(s, Store(i, t, entries)).instances.Keys == s.instances.Keys + {i};
  }

  lemma AloneAndOpen(s: State, i: nat)
    requires SoloInv(s) && i in s.instances
    ensures s.instances.Keys == {i} && i == s.nextId - 1
  {
  }

  lemma PutIsOffered(s: State, i: nat, t: nat, entries: seq<Row>, k: CacheKey)
    requires SoloInv(s) && Enabled(s, Store(i, t, entries)) && i in s.instances
    requires k in Group(FreshRows(s.instances[i].stored, entries))
    ensures
      var put := Apply(s, Store(i, t, entries));
      && Only(put, i) && put.instances[i].open && put.disk == s.disk
      && k in View(put) && View(put)[k] == Group(FreshRows(s.instances[i].stored, entries))[k]
  {
    hide SoloInv, FreshRows, Group, FirstWins, Apply, Enabled;
    AloneAndOpen(s, i);
    PutState(s, i, t, entries);
    StoreAddsFreshRows(s.instances[i].stored, entries);
  }

  lemma PutIsForgotten(s: State, i: nat, t: nat, entries: seq<Row>)
    requires SoloInv(s) && Enabled(s, Store(i, t, entries)) && !Agrees(s.instances[i], s.disk, entries)
    ensures
      var put := Apply(s, Store(i, t, entries));
      exists after :: CarefulRun(put, after) && !Holds(View(Exec(put, after)), View(put))
  {
    var put, offered := Apply(s, Store(i, t, entries)), Group(FreshRows(s.instances[i].stored, entries));
    var k :| k in offered && k in s.disk && s.disk[k] != offered[k];
    hide SoloInv, Apply, View, FreshRows, Group, CarefulRun, Exec, Enabled, Agrees;
    PutIsOffered(s, i, t, entries, k);
    var after := Reopen(put, i);
  }

  /** A put changes no answer across reopenings if and only if the file says nothing else about the
      rows it is going to send: everything the cache would answer right after the put, it answers at
      the end of every careful run from there. */
  lemma PutSurvivesReopeningIff(s: State, i: nat, t: nat, entries: seq<Row>)
    requires SoloInv(s) && Enabled(s, Store(i, t, entries))
    ensures
      var put := Apply(s, Store(i, t, entries));
      Agrees(s.instances[i], s.disk, entries) <==>
      forall after :: CarefulRun(put, after) ==> Holds(View(Exec(put, after)), View(put))
  {
    var put := Apply(s, Store(i, t, entries));
    if Agrees(s.instances[i], s.disk, entries) {
      CarefulStore(s, i, t, entries);
      forall after | CarefulRun(put, after) ensures Holds(View(Exec(put, after)), View(put)) {
        ViewOnlyGrows(put, after);
      }
    } else {
      PutIsForgotten(s, i, t, entries);
    }
  }
}

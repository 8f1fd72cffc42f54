/**
 Batch jobs as a protocol: submitters, tasks waiting for a slot, their progress drains,
 cancellers and restarts, interleaved in any order. A run is any sequence of steps; a step that
 is not enabled changes nothing.
 */
module JobProtocol {
  import opened Wrappers
  import opened Jobs

  /** A task waits for a slot, holds one, or does the work. */
  datatype Phase = Waiting | Admitted | Working

  datatype Event = Began(id: string) | CancelOk(id: string)

  /** `used` and `log` are history: nothing but the freshness of new ids reads them. */
  datatype State = State(
    store: Store,
    creating: set<string>,   // file written, entry not yet inserted
    unattached: set<string>, // entry inserted, task not yet spawned
    tasks: map<string, Phase>,
    drains: set<string>,
    pulled: set<string>,     // abort handles pulled, the abort not yet landed
    slots: nat,
    used: set<string>,
    log: seq<Event>)

  datatype Step =
    | CreateFile(id: string, sql: string, now: int)
    | CreateEntry(id: string, sql: string, now: int)
    | Attach(id: string, handle: nat)
    | Acquire(id: string)
    | Start(id: string, now: int, written: bool)
    | Progress(id: string, line: string, funnel: Option<nat>, written: bool)
    | DrainEnds(id: string)
    | Done(id: string, outcome: Outcome, now: int, written: bool)
    | Cancel(id: string, now: int, written: bool)
    | AbortLands(id: string)
    | Restart(now: int, writes: string -> bool)

  function Holders(tasks: map<string, Phase>): set<string> {
    set id | id in tasks && tasks[id] != Waiting
  }

  predicate Enabled(s: State, step: Step) {
    match step
    case CreateFile(id, _, _) => id !in s.used
    case CreateEntry(id, sql, now) => id in s.creating && id in s.store.disk && s.store.disk[id] == NewRecord(id, sql, now)
    case Attach(id, _) => id in s.unattached
    case Acquire(id) => id in s.tasks && s.tasks[id] == Waiting && |Holders(s.tasks)| < s.slots
    case Start(id, _, _) => id in s.tasks && s.tasks[id] == Admitted
    case Progress(id, _, _, _) => id in s.drains
    case DrainEnds(id) => id in s.drains
    // The task waits for its drain before it writes the outcome.
    case Done(id, _, _, _) => id in s.tasks && s.tasks[id] == Working && id !in s.drains
    case Cancel(id, _, _) => Starts(s.store, id)
    case AbortLands(id) => id in s.pulled && id in s.tasks
    case Restart(_, _) => true
  }

  function Apply(s: State, step: Step): State
    requires Enabled(s, step)
  {
    match step
    case CreateFile(id, sql, now) =>
      s.(store := s.store.(disk := s.store.disk[id := NewRecord(id, sql, now)]), creating := s.creating + {id}, used := s.used + {id})
    case CreateEntry(id, sql, now) =>
      s.(store := s.store.(jobs := s.store.jobs[id := Entry(NewRecord(id, sql, now), None)]),
         creating := s.creating - {id}, unattached := s.unattached + {id})
    case Attach(id, handle) =>
      s.(store := Attached(s.store, id, handle), tasks := s.tasks[id := Waiting], unattached := s.unattached - {id})
    case Acquire(id) => s.(tasks := s.tasks[id := Admitted])
    case Start(id, now, written) =>
      var after := s.(store := Started(s.store, id, now, written));
      if Starts(s.store, id) then
        after.(tasks := s.tasks[id := Working], drains := s.drains + {id}, log := s.log + [Began(id)])
      else after.(tasks := s.tasks - {id})
    case Progress(id, line, funnel, written) => s.(store := Updated(s.store, id, Progressed(line, funnel), written))
    case DrainEnds(id) => s.(drains := s.drains - {id})
    case Done(id, outcome, now, written) =>
      s.(store := Updated(s.store, id, Finish(outcome, now), written), tasks := s.tasks - {id})
    case Cancel(id, now, written) =>
      s.(store := CancelledIn(s.store, id, now, written), log := s.log + [CancelOk(id)],
         pulled := if s.store.jobs[id].abort.Some? then s.pulled + {id} else s.pulled)
    case AbortLands(id) => s.(tasks := s.tasks - {id}, pulled := s.pulled - {id})
    case Restart(now, writes) =>
      s.(store := Recovered(s.store.disk, now, writes), creating := {}, unattached := {}, tasks := map[], drains := {}, pulled := {})
  }

  function Next(s: State, step: Step): State {
    if Enabled(s, step) then Apply(s, step) else s
  }

  function Exec(s: State, steps: seq<Step>): State {
    if steps == [] then s else Next(Exec(s, steps[..|steps| - 1]), steps[|steps| - 1])
  }

  /** A server started on an empty directory; a ceiling of zero is read as one. */
  function Boot(maxConcurrent: nat): State {
    State(Store(map[], map[]), {}, {}, map[], {}, {}, if maxConcurrent == 0 then 1 else maxConcurrent, {}, [])
  }

  // ---- what every step keeps ----

  predicate PathOnlyOnSuccess(r: Record) {
    r.resultPath.Some? ==> r.status == Succeeded
  }

  /** The entry of a job. */
  ghost predicate EntryOk(s: State, id: string) {
    id in s.store.jobs ==>
      var e := s.store.jobs[id];
      && e.record.id == id && id in s.store.disk && id !in s.creating && id in s.used
      && PathOnlyOnSuccess(e.record)
      && (e.record.status == Running ==> e.abort.Some? && id in s.tasks && s.tasks[id] == Working)
  }

  ghost predicate FileOk(s: State, id: string) {
    id in s.store.disk ==> s.store.disk[id].id == id && PathOnlyOnSuccess(s.store.disk[id]) && id in s.used
  }

  /** Its task, if it has one. */
  ghost predicate TaskOk(s: State, id: string) {
    && (id in s.creating ==> id in s.store.disk && id in s.used)
    && (id in s.unattached ==> id in s.store.jobs && id !in s.tasks)
    && (id in s.tasks ==> id in s.store.jobs && (s.store.jobs[id].abort.Some? || s.store.jobs[id].record.status.Terminal()))
    && (id in s.pulled ==> id in s.store.jobs && s.store.jobs[id].record.status.Terminal())
  }

  /** What the log says of it. */
  ghost predicate LogOk(s: State, id: string) {
    && (Began(id) in s.log ==> id in s.used && id !in s.creating && id !in s.unattached && (id in s.tasks ==> s.tasks[id] == Working))
    && (CancelOk(id) in s.log ==> id in s.used && id !in s.creating && (id in s.store.jobs ==> s.store.jobs[id].record.status.Terminal()))
  }

  ghost predicate JobOk(s: State, id: string) {
    EntryOk(s, id) && FileOk(s, id) && TaskOk(s, id) && LogOk(s, id)
  }

  /** Nothing begins twice, and nothing begins after a cancel said it would not. */
  ghost predicate WellLogged(log: seq<Event>) {
    forall i, j :: 0 <= i < j < |log| && log[j].Began? ==> log[i] != log[j] && log[i] != CancelOk(log[j].id)
  }

  ghost predicate Inv(s: State) {
    && (forall id {:trigger JobOk(s, id)} :: JobOk(s, id))
    && WellLogged(s.log)
    && |Holders(s.tasks)| <= s.slots
  }

  /** Everything the state says of a job. */
  ghost predicate SameFor(s: State, t: State, id: string) {
    && (id in s.store.jobs <==> id in t.store.jobs) && (id in s.store.jobs ==> s.store.jobs[id] == t.store.jobs[id])
    && (id in s.store.disk <==> id in t.store.disk) && (id in s.store.disk ==> s.store.disk[id] == t.store.disk[id])
    && (id in s.tasks <==> id in t.tasks) && (id in s.tasks ==> s.tasks[id] == t.tasks[id])
    && (id in s.creating <==> id in t.creating) && (id in s.unattached <==> id in t.unattached)
    && (id in s.pulled <==> id in t.pulled) && (id in s.used <==> id in t.used)
    && (Began(id) in s.log <==> Began(id) in t.log) && (CancelOk(id) in s.log <==> CancelOk(id) in t.log)
  }

  lemma ChangeTouchesOne(s: Store, id: string, record: Record, written: bool, other: string)
    requires id in s.jobs && record.id == id && id != other
    ensures
      var t := Changed(s, id, record, written);
      && (other in s.jobs <==> other in t.jobs) && (other in s.jobs ==> s.jobs[other] == t.jobs[other])
      && (other in s.disk <==> other in t.disk) && (other in s.disk ==> s.disk[other] == t.disk[other])
  {
  }

  lemma OtherStepTouchesOne(s: State, step: Step, id: string)
    requires step.CreateFile? || step.CreateEntry? || step.Attach? || step.Acquire? || step.DrainEnds? || step.AbortLands?
    requires Enabled(s, step) && id != step.id
    ensures SameFor(s, Apply(s, step), id)
  {
  }

  /** A step is about one job. */
  lemma StepTouchesOne(s: State, step: Step, id: string)
    requires Enabled(s, step) && !step.Restart? && id != step.id && EntryOk(s, step.id)
    ensures SameFor(s, Apply(s, step), id)
  {
    if step.Start? || step.Progress? || step.Done? || step.Cancel? {
      if step.id in s.store.jobs {
        var r := s.store.jobs[step.id].record;
        match step
        case Start(_, now, written) => ChangeTouchesOne(s.store, step.id, r.(status := Running, startedAt := Some(now)), written, id);
        case Progress(_, line, funnel, written) => ChangeTouchesOne(s.store, step.id, Progressed(line, funnel)(r), written, id);
        case Done(_, outcome, now, written) => ChangeTouchesOne(s.store, step.id, Finish(outcome, now)(r), written, id);
        case Cancel(_, now, written) => ChangeTouchesOne(s.store, step.id, CancelledRecord(r, now), written, id);
      }
    } else {
      OtherStepTouchesOne(s, step, id);
    }
  }

  lemma SameIsOk(s: State, t: State, id: string)
    requires JobOk(s, id) && SameFor(s, t, id)
    ensures JobOk(t, id)
  {
  }

  lemma CreationKeepsJob(s: State, step: Step)
    requires step.CreateFile? || step.CreateEntry? || step.Attach? || step.Acquire? || step.DrainEnds? || step.AbortLands?
    requires Enabled(s, step) && JobOk(s, step.id)
    ensures JobOk(Apply(s, step), step.id)
  {
  }

  lemma StartKeepsJob(s: State, id: string, now: int, written: bool)
    requires Enabled(s, Start(id, now, written)) && JobOk(s, id)
    ensures JobOk(Apply(s, Start(id, now, written)), id)
  {
  }

  lemma CancelKeepsJob(s: State, id: string, now: int, written: bool)
    requires Enabled(s, Cancel(id, now, written)) && JobOk(s, id)
    ensures JobOk(Apply(s, Cancel(id, now, written)), id)
  {
  }

  /** An update that keeps the id and never moves a job into running. */
  lemma UpdateKeepsJob(s: State, id: string, record: Record, written: bool, tasks: map<string, Phase>)
    requires id in s.store.jobs && JobOk(s, id) && record.id == id && PathOnlyOnSuccess(record)
    requires s.store.jobs[id].record.status.Terminal() ==> record.status == s.store.jobs[id].record.status
    requires tasks == s.tasks || (record.status != Running && tasks == s.tasks - {id})
    requires record.status == Running ==> s.store.jobs[id].record.status == Running
    ensures JobOk(s.(store := Changed(s.store, id, record, written), tasks := tasks), id)
  {
  }

  lemma ThisJob(s: State, step: Step)
    requires Enabled(s, step) && !step.Restart? && JobOk(s, step.id)
    ensures JobOk(Apply(s, step), step.id)
  {
    match step
    case Start(id, now, written) => StartKeepsJob(s, id, now, written);
    case Cancel(id, now, written) => CancelKeepsJob(s, id, now, written);
    case Progress(id, line, funnel, written) =>
      if id in s.store.jobs {
        UpdateKeepsJob(s, id, Progressed(line, funnel)(s.store.jobs[id].record), written, s.tasks);
      }
    case Done(id, outcome, now, written) =>
      UpdateKeepsJob(s, id, Finish(outcome, now)(s.store.jobs[id].record), written, s.tasks - {id});
    case _ => CreationKeepsJob(s, step);
  }

  lemma RestartKeepsJob(s: State, now: int, writes: string -> bool, id: string)
    requires JobOk(s, id)
    ensures JobOk(Apply(s, Restart(now, writes)), id)
  {
  }

  // ---- slots ----

  lemma Fewer(a: set<string>, b: set<string>)
    requires forall x :: x in a ==> x in b
    ensures |a| <= |b|
  {
    assert a <= b;
    assert b == a + (b - a);
  }

  /** Only acquiring takes a slot. */
  lemma HoldersFit(s: State, step: Step)
    requires Enabled(s, step) && |Holders(s.tasks)| <= s.slots
    ensures |Holders(Apply(s, step).tasks)| <= Apply(s, step).slots
  {
    var after := Apply(s, step).tasks;
    match step
    case Acquire(id) => assert Holders(after) == Holders(s.tasks) + {id};
    case Restart(_, _) => assert Holders(after) == {};
    case _ =>
      assert forall id :: id in Holders(after) ==> id in Holders(s.tasks);
      Fewer(Holders(after), Holders(s.tasks));
  }

  function RunningJobs(jobs: JobMap): set<string> {
    set id | id in jobs && jobs[id].record.status == Running
  }

  lemma RunningFits(s: State)
    requires Inv(s)
    ensures |RunningJobs(s.store.jobs)| <= s.slots
  {
    forall id | id in RunningJobs(s.store.jobs) ensures id in Holders(s.tasks) {
      assert JobOk(s, id);
    }
    Fewer(RunningJobs(s.store.jobs), Holders(s.tasks));
  }

  // ---- the log ----

  lemma LogStaysWell(s: State, step: Step)
    requires Enabled(s, step) && WellLogged(s.log) && (!step.Restart? ==> JobOk(s, step.id))
    ensures WellLogged(Apply(s, step).log)
  {
    var log := Apply(s, step).log;
    if step.Start? && Starts(s.store, step.id) {
      assert Began(step.id) !in s.log && CancelOk(step.id) !in s.log;
      forall i, j | 0 <= i < j < |log| && log[j].Began? ensures log[i] != log[j] && log[i] != CancelOk(log[j].id) {
        assert log[i] == s.log[i] && s.log[i] in s.log;
      }
    }
  }

  lemma StepKeepsInv(s: State, step: Step)
    requires Inv(s)
    ensures Inv(Next(s, step))
  {
    if Enabled(s, step) {
      var t := Apply(s, step);
      HoldersFit(s, step);
      if step.Restart? {
        forall id ensures JobOk(t, id) {
          assert JobOk(s, id);
          RestartKeepsJob(s, step.now, step.writes, id);
        }
      } else {
        assert JobOk(s, step.id);
        LogStaysWell(s, step);
        ThisJob(s, step);
        forall id ensures JobOk(t, id) {
          if id != step.id {
            assert JobOk(s, id);
            StepTouchesOne(s, step, id);
            SameIsOk(s, t, id);
          }
        }
      }
    }
  }

  lemma {:induction false} InvHolds(maxConcurrent: nat, steps: seq<Step>)
    ensures Inv(Exec(Boot(maxConcurrent), steps))
  {
    if steps == [] {
      assert Holders(map[]) == {};
    } else {
      InvHolds(maxConcurrent, steps[..|steps| - 1]);
      StepKeepsInv(Exec(Boot(maxConcurrent), steps[..|steps| - 1]), steps[|steps| - 1]);
    }
  }

  lemma {:induction false} SlotsStay(maxConcurrent: nat, steps: seq<Step>)
    ensures Exec(Boot(maxConcurrent), steps).slots == Boot(maxConcurrent).slots
  {
    if steps != [] {
      SlotsStay(maxConcurrent, steps[..|steps| - 1]);
    }
  }

  ghost predicate Safe(s: State) {
    && (forall id :: id in s.store.jobs && s.store.jobs[id].record.status == Running ==> s.store.jobs[id].abort.Some?)
    && WellLogged(s.log)
    && |RunningJobs(s.store.jobs)| <= s.slots
    && (forall id :: id in s.store.jobs ==> PathOnlyOnSuccess(s.store.jobs[id].record))
    && (forall id :: id in s.store.disk ==> PathOnlyOnSuccess(s.store.disk[id]))
  }

  lemma InvIsSafe(s: State)
    requires Inv(s)
    ensures Safe(s)
  {
    RunningFits(s);
    forall id | id in s.store.jobs
      ensures PathOnlyOnSuccess(s.store.jobs[id].record)
      ensures s.store.jobs[id].record.status == Running ==> s.store.jobs[id].abort.Some?
    {
      assert JobOk(s, id);
    }
    forall id | id in s.store.disk ensures PathOnlyOnSuccess(s.store.disk[id]) {
      assert JobOk(s, id);
    }
  }

  /** Whatever the interleaving, restarts and failed writes included: a running job has its abort
      handle stored, work begins at most once and never after a cancel returned Ok, no more jobs
      run than there are slots, and only a succeeded job has a result path. */
  lemma RunsAreSafe(maxConcurrent: nat, steps: seq<Step>)
    ensures Safe(Exec(Boot(maxConcurrent), steps))
    ensures Exec(Boot(maxConcurrent), steps).slots == if maxConcurrent == 0 then 1 else maxConcurrent
  {
    InvHolds(maxConcurrent, steps);
    SlotsStay(maxConcurrent, steps);
    InvIsSafe(Exec(Boot(maxConcurrent), steps));
  }

  // ---- terminal statuses ----

  /** Within a process a terminal job keeps its status and its result; only the drain's progress
      line and counts may still change. */
  lemma TerminalStays(s: State, step: Step, id: string)
    requires Inv(s) && !step.Restart? && id in s.store.jobs && s.store.jobs[id].record.status.Terminal()
    ensures
      var before, t := s.store.jobs[id].record, Next(s, step).store.jobs;
      && id in t && t[id].record.(progress := before.progress, funnel := before.funnel) == before
  {
    if Enabled(s, step) {
      assert JobOk(s, id) && JobOk(s, step.id);
      if id != step.id {
        StepTouchesOne(s, step, id);
      }
    }
  }

  /** The stored handle is not a sign of life: a task that ends leaves it behind. */
  lemma HandleOutlivesTheTask(s: State, id: string, outcome: Outcome, now: int, written: bool)
    requires Inv(s) && Enabled(s, Done(id, outcome, now, written))
    requires id in s.store.jobs && s.store.jobs[id].record.status == Running
    ensures
      var t := Apply(s, Done(id, outcome, now, written));
      id !in t.tasks && id in t.store.jobs && t.store.jobs[id].record.status.Terminal() && t.store.jobs[id].abort.Some?
  {
    assert JobOk(s, id);
  }

  /** Across a restart a terminal status survives exactly when the file carries it, or the file
      has the job still in flight and it was interrupted anyway. */
  lemma RestartKeepsTerminalIff(s: State, now: int, writes: string -> bool, id: string)
    requires Inv(s) && id in s.store.jobs && s.store.jobs[id].record.status.Terminal()
    ensures
      var t := Apply(s, Restart(now, writes)).store.jobs;
      var status := s.store.jobs[id].record.status;
      && id in t && id in s.store.disk
      && (t[id].record.status == status <==>
            s.store.disk[id].status == status || (status == Interrupted && !s.store.disk[id].status.Terminal()))
  {
    assert JobOk(s, id);
  }

  predicate Ended(s: State, id: string) {
    id in s.store.jobs && s.store.jobs[id].record.status.Terminal()
  }

  lemma RestartEnds(s: State, now: int, writes: string -> bool, id: string)
    requires Inv(s) && id in s.store.jobs
    ensures Ended(Apply(s, Restart(now, writes)), id)
  {
    assert JobOk(s, id);
  }

  // ---- over runs ----

  /** The step rewrites the job's file, and the write succeeds. */
  predicate Writes(s: State, step: Step, id: string) {
    match step
    case Start(i, _, written) => i == id && written && Starts(s.store, id)
    case Progress(i, _, _, written) => i == id && written && id in s.store.jobs
    case Done(i, _, _, written) => i == id && written
    case Cancel(i, _, written) => i == id && written
    case Restart(_, writes) => id in s.store.disk && !s.store.disk[id].status.Terminal() && writes(id)
    case _ => false
  }

  predicate EndedOnFile(s: State, id: string) {
    id in s.store.disk && s.store.disk[id].status.Terminal()
  }

  /** This step writes the record of a job that has ended, or ends with it. */
  predicate WritesEnd(s: State, step: Step, id: string) {
    Enabled(s, step) && Writes(s, step, id) && Ended(Apply(s, step), id)
  }

  /** Some write of the job's record, at or after the step that ended it, succeeded. */
  ghost predicate EndWritten(maxConcurrent: nat, steps: seq<Step>, id: string) {
    steps != [] &&
      var earlier := steps[..|steps| - 1];
      EndWritten(maxConcurrent, earlier, id) || WritesEnd(Exec(Boot(maxConcurrent), earlier), steps[|steps| - 1], id)
  }

  /** What the file says of the end of a job, memory says too. */
  ghost predicate FileTellsTheEnd(s: State, id: string) {
    id in s.store.jobs && EndedOnFile(s, id) ==> s.store.jobs[id].record.status == s.store.disk[id].status
  }

  /** A record rewritten in place, its file with it or not. */
  lemma ChangeWritesEnd(s: Store, id: string, record: Record, written: bool)
    requires id in s.jobs && record.id == id && id in s.disk
    requires s.disk[id].status.Terminal() ==> record.status == s.disk[id].status
    ensures
      var t := Changed(s, id, record, written);
      && (id in t.disk && (t.disk[id].status.Terminal() <==> s.disk[id].status.Terminal() || (written && record.status.Terminal())))
      && (t.disk[id].status.Terminal() ==> record.status == t.disk[id].status)
      && id in t.jobs && t.jobs[id].record == record
  {
  }

  lemma OwnStepWritesEnd(s: State, step: Step)
    requires Enabled(s, step) && !step.Restart? && JobOk(s, step.id) && FileTellsTheEnd(s, step.id)
    ensures FileTellsTheEnd(Apply(s, step), step.id)
    ensures EndedOnFile(Apply(s, step), step.id) <==> EndedOnFile(s, step.id) || WritesEnd(s, step, step.id)
  {
    var id := step.id;
    if id in s.store.jobs {
      var r := s.store.jobs[id].record;
      match step
      case Start(_, now, written) =>
        if Starts(s.store, id) {
          ChangeWritesEnd(s.store, id, r.(status := Running, startedAt := Some(now)), written);
        }
      case Progress(_, line, funnel, written) => ChangeWritesEnd(s.store, id, Progressed(line, funnel)(r), written);
      case Done(_, outcome, now, written) => ChangeWritesEnd(s.store, id, Finish(outcome, now)(r), written);
      case Cancel(_, now, written) => ChangeWritesEnd(s.store, id, CancelledRecord(r, now), written);
      case _ =>
    }
  }

  lemma SameEnd(s: State, t: State, id: string)
    requires SameFor(s, t, id) && FileTellsTheEnd(s, id)
    ensures FileTellsTheEnd(t, id) && (EndedOnFile(t, id) <==> EndedOnFile(s, id))
  {
  }

  lemma RestartWritesEnd(s: State, now: int, writes: string -> bool, id: string)
    ensures
      var restart := Restart(now, writes);
      && FileTellsTheEnd(Apply(s, restart), id)
      && (EndedOnFile(Apply(s, restart), id) <==> EndedOnFile(s, id) || WritesEnd(s, restart, id))
  {
  }

  lemma StepWritesEnd(s: State, step: Step, id: string)
    requires Inv(s) && FileTellsTheEnd(s, id)
    ensures FileTellsTheEnd(Next(s, step), id)
    ensures EndedOnFile(Next(s, step), id) <==> EndedOnFile(s, id) || WritesEnd(s, step, id)
  {
    if Enabled(s, step) {
      hide Apply, FileTellsTheEnd, EndedOnFile, Ended;
      if step.Restart? {
        RestartWritesEnd(s, step.now, step.writes, id);
      } else {
        assert JobOk(s, step.id);
        if step.id == id {
          OwnStepWritesEnd(s, step);
        } else {
          StepTouchesOne(s, step, id);
          SameEnd(s, Apply(s, step), id);
        }
      }
    }
  }

  /** The file tells of the end exactly if a write since then succeeded. */
  lemma {:induction false} EndOnFileIff(maxConcurrent: nat, steps: seq<Step>, id: string)
    ensures EndedOnFile(Exec(Boot(maxConcurrent), steps), id) <==> EndWritten(maxConcurrent, steps, id)
    ensures FileTellsTheEnd(Exec(Boot(maxConcurrent), steps), id)
  {
    if steps != [] {
      var earlier := steps[..|steps| - 1];
      EndOnFileIff(maxConcurrent, earlier, id);
      InvHolds(maxConcurrent, earlier);
      StepWritesEnd(Exec(Boot(maxConcurrent), earlier), steps[|steps| - 1], id);
    }
  }

  /** Over whole runs: the status of a job that has ended survives the next restart exactly when
      some write of its record, at or after the step that ended it, succeeded, or when it was
      interrupted, which any restart would make it again. */
  lemma TerminalSurvivesRestartIff(maxConcurrent: nat, steps: seq<Step>, now: int, writes: string -> bool, id: string)
    requires Ended(Exec(Boot(maxConcurrent), steps), id)
    ensures
      var s := Exec(Boot(maxConcurrent), steps);
      var status, t := s.store.jobs[id].record.status, Exec(Boot(maxConcurrent), steps + [Restart(now, writes)]).store.jobs;
      && id in t && t[id].record.status.Terminal()
      && (t[id].record.status == status <==> EndWritten(maxConcurrent, steps, id) || status == Interrupted)
  {
    var s := Exec(Boot(maxConcurrent), steps);
    assert (steps + [Restart(now, writes)])[..|steps|] == steps;
    assert Exec(Boot(maxConcurrent), steps + [Restart(now, writes)]) == Apply(s, Restart(now, writes));
    InvHolds(maxConcurrent, steps);
    EndOnFileIff(maxConcurrent, steps, id);
    RestartKeepsTerminalIff(s, now, writes, id);
    RestartEnds(s, now, writes, id);
    hide Exec, Inv, EndWritten, Apply;
  }

  // ---- abort handles ----

  /** The last thing done about the job's handle was to store it: not a cancel, not a restart. */
  ghost predicate Held(maxConcurrent: nat, steps: seq<Step>, id: string) {
    steps != [] &&
      var earlier, step := steps[..|steps| - 1], steps[|steps| - 1];
      if !Enabled(Exec(Boot(maxConcurrent), earlier), step) then Held(maxConcurrent, earlier, id)
      else
        match step
        case Restart(_, _) => false
        case Attach(i, _) => i == id || Held(maxConcurrent, earlier, id)
        case Cancel(i, _, _) => i != id && Held(maxConcurrent, earlier, id)
        case _ => Held(maxConcurrent, earlier, id)
  }

  predicate HasHandle(s: State, id: string) {
    id in s.store.jobs && s.store.jobs[id].abort.Some?
  }

  lemma StepMovesHandle(s: State, step: Step, id: string)
    requires Inv(s) && Enabled(s, step)
    ensures HasHandle(Apply(s, step), id) <==>
      match step
      case Restart(_, _) => false
      case Attach(i, _) => i == id || HasHandle(s, id)
      case Cancel(i, _, _) => i != id && HasHandle(s, id)
      case _ => HasHandle(s, id)
  {
    if !step.Restart? {
      assert JobOk(s, step.id);
      if step.id != id {
        StepTouchesOne(s, step, id);
      }
    }
  }

  /** In every run, and whatever has become of the task: a job has its handle stored exactly when
      neither a cancel of it nor a restart came after the last time one was stored. */
  lemma {:induction false} HandleStoredIff(maxConcurrent: nat, steps: seq<Step>, id: string)
    ensures HasHandle(Exec(Boot(maxConcurrent), steps), id) <==> Held(maxConcurrent, steps, id)
  {
    if steps != [] {
      var earlier, step := steps[..|steps| - 1], steps[|steps| - 1];
      HandleStoredIff(maxConcurrent, earlier, id);
      InvHolds(maxConcurrent, earlier);
      if Enabled(Exec(Boot(maxConcurrent), earlier), step) {
        StepMovesHandle(Exec(Boot(maxConcurrent), earlier), step, id);
      }
    }
  }

  /** The last thing done about the job's task was to spawn it: it has neither finished, nor been
      aborted, nor found its job ended before it began, and no restart killed it. */
  ghost predicate TaskLives(maxConcurrent: nat, steps: seq<Step>, id: string) {
    steps != [] &&
      var earlier, step := steps[..|steps| - 1], steps[|steps| - 1];
      var s := Exec(Boot(maxConcurrent), earlier);
      if !Enabled(s, step) then TaskLives(maxConcurrent, earlier, id)
      else
        match step
        case Restart(_, _) => false
        case Attach(i, _) => i == id || TaskLives(maxConcurrent, earlier, id)
        case Done(i, _, _, _) => i != id && TaskLives(maxConcurrent, earlier, id)
        case AbortLands(i) => i != id && TaskLives(maxConcurrent, earlier, id)
        case Start(i, _, _) => (i != id || Starts(s.store, i)) && TaskLives(maxConcurrent, earlier, id)
        case _ => TaskLives(maxConcurrent, earlier, id)
  }

  lemma {:induction false} HasTaskIff(maxConcurrent: nat, steps: seq<Step>, id: string)
    ensures id in Exec(Boot(maxConcurrent), steps).tasks <==> TaskLives(maxConcurrent, steps, id)
  {
    if steps != [] {
      HasTaskIff(maxConcurrent, steps[..|steps| - 1], id);
    }
  }

  /** A stored handle means a living task exactly in the runs where the job's task still lives or its
      handle was taken away: by a cancel after it was stored, or by a restart. */
  lemma HandleMeansTaskIff(maxConcurrent: nat, steps: seq<Step>, id: string)
    ensures
      var s := Exec(Boot(maxConcurrent), steps);
      (HasHandle(s, id) ==> id in s.tasks) <==> TaskLives(maxConcurrent, steps, id) || !Held(maxConcurrent, steps, id)
  {
    HandleStoredIff(maxConcurrent, steps, id);
    HasTaskIff(maxConcurrent, steps, id);
  }

  // ---- when every write succeeds ----

  predicate WritesAll(step: Step) {
    match step
    case Start(_, _, written) => written
    case Progress(_, _, _, written) => written
    case Done(_, _, _, written) => written
    case Cancel(_, _, written) => written
    case _ => true
  }

  ghost predicate RestartWritesAll(step: Step) {
    step.Restart? ==> forall id :: step.writes(id)
  }

  ghost predicate WrittenRun(steps: seq<Step>) {
    forall i :: 0 <= i < |steps| ==> WritesAll(steps[i]) && RestartWritesAll(steps[i])
  }

  /** The file says what memory says. */
  ghost predicate Synced(s: State, id: string) {
    id in s.store.jobs ==> id in s.store.disk && s.store.disk[id] == s.store.jobs[id].record
  }

  lemma StaysSynced(s: State, step: Step, id: string)
    requires Inv(s) && Synced(s, id) && WritesAll(step) && RestartWritesAll(step)
    ensures Synced(Next(s, step), id)
  {
    if Enabled(s, step) {
      assert JobOk(s, id);
      if !step.Restart? {
        assert JobOk(s, step.id);
        if id != step.id {
          StepTouchesOne(s, step, id);
        }
      }
    }
  }

  lemma {:induction false} FilesMatchMemory(maxConcurrent: nat, steps: seq<Step>, id: string)
    requires WrittenRun(steps)
    ensures Synced(Exec(Boot(maxConcurrent), steps), id)
  {
    if steps != [] {
      var n := |steps| - 1;
      assert WrittenRun(steps[..n]);
      FilesMatchMemory(maxConcurrent, steps[..n], id);
      InvHolds(maxConcurrent, steps[..n]);
      StaysSynced(Exec(Boot(maxConcurrent), steps[..n]), steps[n], id);
    }
  }

  lemma {:induction false} ExecAppends(s: State, a: seq<Step>, b: seq<Step>)
    ensures Exec(s, a + b) == Exec(Exec(s, a), b)
  {
    if b == [] {
      assert a + b == a;
    } else {
      assert (a + b)[..|a + b| - 1] == a + b[..|b| - 1];
      ExecAppends(s, a, b[..|b| - 1]);
    }
  }

  /** If writes succeed, a job that has ended never changes status again, restarts included. */
  lemma {:induction false} EndedForGood(maxConcurrent: nat, before: seq<Step>, after: seq<Step>, id: string)
    requires WrittenRun(before + after)
    requires
      var jobs := Exec(Boot(maxConcurrent), before).store.jobs;
      id in jobs && jobs[id].record.status.Terminal()
    ensures
      var jobs, later := Exec(Boot(maxConcurrent), before).store.jobs, Exec(Boot(maxConcurrent), before + after).store.jobs;
      id in later && later[id].record.status == jobs[id].record.status
  {
    if after == [] {
      assert before + after == before;
    } else {
      var n, all := |after| - 1, before + after;
      assert all[..|all| - 1] == before + after[..n];
      assert WrittenRun(before + after[..n]);
      EndedForGood(maxConcurrent, before, after[..n], id);
      InvHolds(maxConcurrent, before + after[..n]);
      var s := Exec(Boot(maxConcurrent), before + after[..n]);
      if after[n].Restart? {
        FilesMatchMemory(maxConcurrent, before + after[..n], id);
        RestartKeepsTerminalIff(s, after[n].now, after[n].writes, id);
      } else {
        TerminalStays(s, after[n], id);
      }
    }
  }

  // ---- a run in which one does not ----

  /** A server with one job, and this much of its life behind it. */
  function OneJob(max: nat, id: string, entry: Entry, file: Record, tasks: map<string, Phase>, drains: set<string>, log: seq<Event>): State {
    Boot(max).(store := Store(map[id := entry], map[id := file]), tasks := tasks, drains := drains, used := {id}, log := log)
  }

  lemma Exec3(s: State, a: Step, b: Step, c: Step)
    ensures Exec(s, [a, b, c]) == Next(Next(Next(s, a), b), c)
  {
    assert [a, b, c][..2] == [a, b] && [a, b][..1] == [a] && [a][..0] == [];
    assert Exec(s, [a]) == Next(s, a);
    assert Exec(s, [a, b]) == Next(Next(s, a), b);
  }

  lemma Submitted(max: nat, id: string, sql: string, now: int, handle: nat)
    ensures
      var record := NewRecord(id, sql, now);
      Exec(Boot(max), [CreateFile(id, sql, now), CreateEntry(id, sql, now), Attach(id, handle)])
      == OneJob(max, id, Entry(record, Some(handle)), record, map[id := Waiting], {}, [])
  {
    var record := NewRecord(id, sql, now);
    var a, b, c := CreateFile(id, sql, now), CreateEntry(id, sql, now), Attach(id, handle);
    Exec3(Boot(max), a, b, c);
    var created := Boot(max).(store := Store(map[], map[id := record]), creating := {id}, used := {id});
    assert Next(Boot(max), a) == created;
    assert Next(created, b) == created.(store := Store(map[id := Entry(record, None)], map[id := record]), creating := {}, unattached := {id});
  }

  lemma Works(max: nat, id: string, record: Record, handle: nat, now: int)
    requires record.id == id && record.status == Queued
    ensures
      var running := record.(status := Running, startedAt := Some(now));
      Exec(OneJob(max, id, Entry(record, Some(handle)), record, map[id := Waiting], {}, []), [Acquire(id), Start(id, now, true), DrainEnds(id)])
      == OneJob(max, id, Entry(running, Some(handle)), running, map[id := Working], {}, [Began(id)])
  {
    var s := OneJob(max, id, Entry(record, Some(handle)), record, map[id := Waiting], {}, []);
    var running := record.(status := Running, startedAt := Some(now));
    var admitted := s.(tasks := map[id := Admitted]);
    var begun := OneJob(max, id, Entry(running, Some(handle)), running, map[id := Working], {id}, [Began(id)]);
    assert Next(s, Acquire(id)) == admitted by {
      assert Holders(s.tasks) == {};
    }
    assert Next(admitted, Start(id, now, true)) == begun;
    assert Next(begun, DrainEnds(id)) == begun.(drains := {});
    hide Next;
    Exec3(s, Acquire(id), Start(id, now, true), DrainEnds(id));
  }

  /** A job's life up to its work, and the step that ends it. */
  function Life(id: string, sql: string, handle: nat, submitted: int, started: int, end: Step): seq<Step> {
    [CreateFile(id, sql, submitted), CreateEntry(id, sql, submitted), Attach(id, handle)]
    + [Acquire(id), Start(id, started, true), DrainEnds(id)]
    + [end]
  }

  /** Up to its end, a job whose success could not be written. */
  function LostEnd(id: string, sql: string, handle: nat, submitted: int, started: int, path: string, rows: nat, ended: int): seq<Step> {
    Life(id, sql, handle, submitted, started, Done(id, Written(path, rows), ended, false))
  }

  lemma LifeRuns(max: nat, id: string, sql: string, handle: nat, submitted: int, started: int, end: Step)
    ensures
      var running := NewRecord(id, sql, submitted).(status := Running, startedAt := Some(started));
      var working := OneJob(max, id, Entry(running, Some(handle)), running, map[id := Working], {}, [Began(id)]);
      Exec(Boot(max), Life(id, sql, handle, submitted, started, end)) == Next(working, end)
  {
    var first, second := [CreateFile(id, sql, submitted), CreateEntry(id, sql, submitted), Attach(id, handle)],
                         [Acquire(id), Start(id, started, true), DrainEnds(id)];
    var last: seq<Step> := [end];
    var working := Exec(Boot(max), first + second);
    assert last[..0] == [] && Exec(working, last) == Next(working, end);
    hide Next, Exec, OneJob;
    ExecAppends(Boot(max), first, second);
    ExecAppends(Boot(max), first + second, last);
    Submitted(max, id, sql, submitted, handle);
    Works(max, id, NewRecord(id, sql, submitted), handle, started);
  }

  lemma EndsUnwritten(max: nat, id: string, running: Record, handle: nat, path: string, rows: nat, ended: int, later: int)
    requires running.id == id && running.status == Running
    ensures
      var working := OneJob(max, id, Entry(running, Some(handle)), running, map[id := Working], {}, [Began(id)]);
      var s := Next(working, Done(id, Written(path, rows), ended, false));
      var t := Next(s, Restart(later, _ => true));
      && id in s.store.jobs && s.store.jobs[id].record.status == Succeeded
      && id in t.store.jobs && t.store.jobs[id].record.status == Interrupted
  {
  }

  /** The next restart interrupts it, although it had succeeded. */
  lemma LostWriteInterrupts(
    max: nat, id: string, sql: string, handle: nat, submitted: int, started: int, path: string, rows: nat, ended: int, later: int)
    ensures
      var steps := LostEnd(id, sql, handle, submitted, started, path, rows, ended);
      var s, t := Exec(Boot(max), steps).store.jobs, Exec(Boot(max), steps + [Restart(later, _ => true)]).store.jobs;
      && id in s && s[id].record.status == Succeeded
      && id in t && t[id].record.status == Interrupted
  {
    var steps, restart := LostEnd(id, sql, handle, submitted, started, path, rows, ended), Restart(later, _ => true);
    var running := NewRecord(id, sql, submitted).(status := Running, startedAt := Some(started));
    assert (steps + [restart])[..|steps|] == steps;
    assert Exec(Boot(max), steps + [restart]) == Next(Exec(Boot(max), steps), restart);
    hide Next, Exec, OneJob, LostEnd;
    LifeRuns(max, id, sql, handle, submitted, started, Done(id, Written(path, rows), ended, false));
    EndsUnwritten(max, id, running, handle, path, rows, ended, later);
  }

  // ---- runs in which a handle outlives its task ----

  lemma FinishedTaskIsGone(max: nat, id: string, running: Record, handle: nat, outcome: Outcome, ended: int, written: bool)
    requires running.id == id && running.status == Running
    ensures
      var working := OneJob(max, id, Entry(running, Some(handle)), running, map[id := Working], {}, [Began(id)]);
      var s := Next(working, Done(id, outcome, ended, written));
      HasHandle(s, id) && id !in s.tasks && Ended(s, id)
  {
  }

  /** A task that finishes leaves its handle behind. */
  lemma FinishedJobKeepsItsHandle(
    max: nat, id: string, sql: string, handle: nat, submitted: int, started: int, outcome: Outcome, ended: int, written: bool)
    ensures
      var s := Exec(Boot(max), Life(id, sql, handle, submitted, started, Done(id, outcome, ended, written)));
      HasHandle(s, id) && id !in s.tasks && Ended(s, id)
  {
    var running := NewRecord(id, sql, submitted).(status := Running, startedAt := Some(started));
    hide Next, Exec, OneJob, Life, HasHandle, Ended;
    LifeRuns(max, id, sql, handle, submitted, started, Done(id, outcome, ended, written));
    FinishedTaskIsGone(max, id, running, handle, outcome, ended, written);
  }

  /** Cancelled before it had a handle to take: the handle stored afterwards stays when the task
      finds the job ended and goes. */
  function CancelledEarly(id: string, sql: string, handle: nat, submitted: int, cancelled: int, started: int): seq<Step> {
    [CreateFile(id, sql, submitted), CreateEntry(id, sql, submitted), Cancel(id, cancelled, true)]
    + [Attach(id, handle), Acquire(id), Start(id, started, true)]
  }

  lemma CancelledFirst(max: nat, id: string, sql: string, submitted: int, cancelled: int)
    ensures
      var record := CancelledRecord(NewRecord(id, sql, submitted), cancelled);
      Exec(Boot(max), [CreateFile(id, sql, submitted), CreateEntry(id, sql, submitted), Cancel(id, cancelled, true)])
      == OneJob(max, id, Entry(record, None), record, map[], {}, [CancelOk(id)]).(unattached := {id})
  {
    var record := NewRecord(id, sql, submitted);
    var a, b, c := CreateFile(id, sql, submitted), CreateEntry(id, sql, submitted), Cancel(id, cancelled, true);
    var created := Boot(max).(store := Store(map[], map[id := record]), creating := {id}, used := {id});
    var entered := created.(store := Store(map[id := Entry(record, None)], map[id := record]), creating := {}, unattached := {id});
    assert Next(Boot(max), a) == created;
    assert Next(created, b) == entered;
    Exec3(Boot(max), a, b, c);
    assert entered.log + [CancelOk(id)] == [CancelOk(id)];
  }

  lemma AttachedAndRefused(max: nat, id: string, record: Record, handle: nat, started: int)
    requires record.id == id && record.status.Terminal()
    ensures
      var s := OneJob(max, id, Entry(record, None), record, map[], {}, [CancelOk(id)]).(unattached := {id});
      Exec(s, [Attach(id, handle), Acquire(id), Start(id, started, true)])
      == OneJob(max, id, Entry(record, Some(handle)), record, map[], {}, [CancelOk(id)])
  {
    var s := OneJob(max, id, Entry(record, None), record, map[], {}, [CancelOk(id)]).(unattached := {id});
    var waiting := OneJob(max, id, Entry(record, Some(handle)), record, map[id := Waiting], {}, [CancelOk(id)]);
    var admitted := waiting.(tasks := map[id := Admitted]);
    assert Next(s, Attach(id, handle)) == waiting;
    assert Next(waiting, Acquire(id)) == admitted by {
      assert Holders(waiting.tasks) == {};
    }
    assert Next(admitted, Start(id, started, true)) == admitted.(tasks := map[]);
    hide Next;
    Exec3(s, Attach(id, handle), Acquire(id), Start(id, started, true));
  }

  lemma CancelledJobKeepsItsHandle(max: nat, id: string, sql: string, handle: nat, submitted: int, cancelled: int, started: int)
    ensures
      var s := Exec(Boot(max), CancelledEarly(id, sql, handle, submitted, cancelled, started));
      HasHandle(s, id) && id !in s.tasks && s.store.jobs[id].record.status == Cancelled
  {
    var record := CancelledRecord(NewRecord(id, sql, submitted), cancelled);
    ExecAppends(Boot(max), [CreateFile(id, sql, submitted), CreateEntry(id, sql, submitted), Cancel(id, cancelled, true)],
                [Attach(id, handle), Acquire(id), Start(id, started, true)]);
    hide Exec;
    CancelledFirst(max, id, sql, submitted, cancelled);
    AttachedAndRefused(max, id, record, handle, started);
  }
}

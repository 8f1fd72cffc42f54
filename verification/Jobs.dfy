/**
 The job registry: records in a locked map, each rewritten to its own file on every change.
 Every method is one critical section; what a file write does is a parameter, since a failed
 write is logged and ignored.
 */
module Jobs {
  import opened Wrappers

  datatype Status = Queued | Running | Succeeded | Failed | Cancelled | Interrupted {
    predicate Terminal() {
      this != Queued && this != Running
    }
  }

  datatype Record = Record(
    id: string, sql: string, status: Status, submittedAt: int, startedAt: Option<int>, finishedAt: Option<int>,
    rows: Option<nat>, commandTag: Option<string>, error: Option<string>, progress: Option<string>, funnel: nat,
    resultPath: Option<string>)

  function NewRecord(id: string, sql: string, now: int): Record {
    Record(id, sql, Queued, now, None, None, None, None, None, None, 0, None)
  }

  /** `abort` is the handle that stops the job's task. Only a cancel takes it away again, so it can
      outlive the task. */
  datatype Entry = Entry(record: Record, abort: Option<nat>)

  type JobMap = map<string, Entry>

  type Files = map<string, Record>

  /** The registry's whole state. */
  datatype Store = Store(jobs: JobMap, disk: Files)

  function Persist(disk: Files, record: Record, written: bool): Files {
    if written then disk[record.id := record] else disk
  }

  // ---- the critical sections ----

  function Changed(s: Store, id: string, record: Record, written: bool): Store
    requires id in s.jobs
  {
    Store(s.jobs[id := s.jobs[id].(record := record)], Persist(s.disk, record, written))
  }

  predicate Starts(s: Store, id: string) {
    id in s.jobs && !s.jobs[id].record.status.Terminal()
  }

  function Started(s: Store, id: string, now: int, written: bool): Store {
    if Starts(s, id) then Changed(s, id, s.jobs[id].record.(status := Running, startedAt := Some(now)), written)
    else s
  }

  function Updated(s: Store, id: string, mutate: Record -> Record, written: bool): Store {
    if id in s.jobs then Changed(s, id, mutate(s.jobs[id].record), written) else s
  }

  function CancelledRecord(record: Record, now: int): Record {
    record.(status := Cancelled, finishedAt := Some(now), resultPath := None)
  }

  function CancelledIn(s: Store, id: string, now: int, written: bool): Store {
    if Starts(s, id) then
      var after := Changed(s, id, CancelledRecord(s.jobs[id].record, now), written);
      after.(jobs := after.jobs[id := after.jobs[id].(abort := None)])
    else s
  }

  function Attached(s: Store, id: string, handle: nat): Store {
    if id in s.jobs then s.(jobs := s.jobs[id := s.jobs[id].(abort := Some(handle))]) else s
  }

  // ---- what the task writes ----

  datatype Outcome = Written(path: string, rows: nat) | Command(tag: string) | Buffered | Broken(message: string)

  /** The task's terminal update, unless something already wrote one. */
  function Finish(outcome: Outcome, now: int): Record -> Record {
    (r: Record) =>
      if r.status.Terminal() then r
      else
        var done := r.(finishedAt := Some(now));
        match outcome
        case Written(path, rows) => done.(status := Succeeded, rows := Some(rows), resultPath := Some(path))
        case Command(tag) => done.(status := Succeeded, commandTag := Some(tag))
        case Buffered => done.(status := Failed, error := Some("internal: job produced buffered rows"))
        case Broken(message) => done.(status := Failed, error := Some(message), resultPath := None)
  }

  /** The drain's update: it never touches the status. */
  function Progressed(line: string, funnel: Option<nat>): Record -> Record {
    (r: Record) => r.(progress := Some(line), funnel := if funnel.Some? then funnel.value else r.funnel)
  }

  // ---- recovery ----

  /** A job that had not ended is interrupted; one that had is taken as it is. */
  function RecoveredRecord(record: Record, now: int): Record {
    if record.status.Terminal() then record
    else record.(status := Interrupted, finishedAt := Some(now),
                 error := Some("the server restarted while this job was running"), resultPath := None)
  }

  function RecoveredJobs(disk: Files, now: int): JobMap {
    map id | id in disk :: Entry(RecoveredRecord(disk[id], now), None)
  }

  function RecoveredDisk(disk: Files, now: int, written: string -> bool): Files {
    map id | id in disk :: if written(id) then RecoveredRecord(disk[id], now) else disk[id]
  }

  function Recovered(disk: Files, now: int, written: string -> bool): Store {
    Store(RecoveredJobs(disk, now), RecoveredDisk(disk, now, written))
  }

  /** Recovery leaves nothing queued or running, whatever failed to be written. */
  lemma RecoveryLeavesNothingLive(disk: Files, now: int, written: string -> bool, id: string)
    requires id in disk
    ensures var s := Recovered(disk, now, written);
      && id in s.jobs && s.jobs[id].record.status.Terminal() && s.jobs[id].abort == None
      && (disk[id].status.Terminal() ==> s.jobs[id].record == disk[id] && s.disk[id] == disk[id])
  {
  }

  /** Recovering what a recovery wrote changes nothing, whenever it happens. */
  lemma RecoveryIsIdempotent(disk: Files, now: int, later: int, written: string -> bool)
    ensures
      var once := Recovered(disk, now, _ => true);
      Recovered(once.disk, later, written) == once
  {
    var files := RecoveredDisk(disk, now, _ => true);
    assert files.Keys == disk.Keys;
    forall id | id in disk ensures id in files && RecoveredRecord(files[id], later) == files[id] == RecoveredRecord(disk[id], now) {
    }
    assert RecoveredDisk(files, later, written) == files;
    assert RecoveredJobs(files, later) == RecoveredJobs(disk, now);
  }

  /** Where recovery stands when these files are still to be read. */
  ghost predicate RecoveredSoFar(files: Files, left: set<string>, s: Store, now: int, written: string -> bool) {
    && left <= files.Keys && s.disk.Keys == files.Keys && s.jobs.Keys == files.Keys - left
    && (forall id :: id in files ==>
          s.disk[id] == if id !in left && written(id) then RecoveredRecord(files[id], now) else files[id])
    && (forall id :: id in s.jobs ==> s.jobs[id] == Entry(RecoveredRecord(files[id], now), None))
  }

  lemma RecoverOne(files: Files, left: set<string>, s: Store, now: int, written: string -> bool, id: string)
    requires RecoveredSoFar(files, left, s, now, written) && id in left && files[id].id == id
    ensures id in s.disk && s.disk[id] == files[id]
    ensures
      var record := RecoveredRecord(files[id], now);
      RecoveredSoFar(files, left - {id},
                     Store(s.jobs[id := Entry(record, None)], if files[id].status.Terminal() then s.disk else Persist(s.disk, record, written(id))),
                     now, written)
  {
    assert id in files.Keys;
  }

  lemma RecoveredAll(files: Files, s: Store, now: int, written: string -> bool)
    requires RecoveredSoFar(files, {}, s, now, written)
    ensures s == Recovered(files, now, written)
  {
    assert s.jobs.Keys == files.Keys && s.disk.Keys == files.Keys;
    assert forall id :: id in files <==> id in files.Keys;
    assert s.jobs == RecoveredJobs(files, now);
    assert s.disk == RecoveredDisk(files, now, written);
  }

  ghost predicate NamedAfterJobs(files: Files) {
    forall id :: id in files ==> files[id].id == id
  }

  ghost predicate EntriesNamed(jobs: JobMap) {
    forall id :: id in jobs ==> jobs[id].record.id == id
  }

  lemma RecoveredStaysNamed(files: Files, now: int, written: string -> bool)
    requires NamedAfterJobs(files)
    ensures NamedAfterJobs(Recovered(files, now, written).disk) && EntriesNamed(Recovered(files, now, written).jobs)
  {
  }

  // ---- the registry object ----

  class JobRegistry {
    var jobs: JobMap
    var disk: Files

    /** Files are named after the job they describe, and so are entries. */
    ghost predicate Valid() reads this {
      NamedAfterJobs(disk) && EntriesNamed(jobs)
    }

    ghost function State(): Store reads this {
      Store(jobs, disk)
    }

    constructor (files: Files)
      requires NamedAfterJobs(files)
      ensures Valid() && State() == Store(map[], files)
    {
      jobs, disk := map[], files;
    }

    /** Loads what an earlier process left, in whatever order the directory lists it. */
    method Recover(now: int, written: string -> bool) returns (recovered: nat)
      requires Valid() && jobs == map[]
      modifies this
      ensures Valid() && State() == Recovered(old(disk), now, written) && recovered == |old(disk).Keys|
    {
      ghost var files := disk;
      var left := disk.Keys;
      assert RecoveredSoFar(files, left, State(), now, written);
      hide RecoveredSoFar, Recovered;
      recovered := 0;
      while left != {}
        invariant RecoveredSoFar(files, left, State(), now, written)
        invariant recovered + |left| == |files.Keys|
        decreases |left|
      {
        var id :| id in left;
        RecoverOne(files, left, State(), now, written, id);
        var record := disk[id];
        if !record.status.Terminal() {
          record := record.(status := Interrupted, finishedAt := Some(now),
                            error := Some("the server restarted while this job was running"), resultPath := None);
          disk := Persist(disk, record, written(id));
        }
        recovered := recovered + 1;
        jobs := jobs[record.id := Entry(record, None)];
        left := left - {id};
      }
      RecoveredAll(files, State(), now, written);
      RecoveredStaysNamed(files, now, written);
    }

    /** The file first, the entry after; an unwritable file is an error and no job. */
    method Create(id: string, sql: string, now: int, written: bool) returns (ok: bool)
      requires Valid()
      modifies this
      ensures Valid() && ok == written
      ensures ok ==> State() == Store(old(jobs)[id := Entry(NewRecord(id, sql, now), None)], old(disk)[id := NewRecord(id, sql, now)])
      ensures !ok ==> State() == old(State())
    {
      if !written {
        return false;
      }
      var record := NewRecord(id, sql, now);
      disk := disk[id := record];
      jobs := jobs[id := Entry(record, None)];
      return true;
    }

    method SpawnAttached(id: string, handle: nat)
      requires Valid()
      modifies this
      ensures Valid() && State() == Attached(old(State()), id, handle)
    {
      if id in jobs {
        jobs := jobs[id := jobs[id].(abort := Some(handle))];
      }
    }

    method Start(id: string, now: int, written: bool) returns (go: bool)
      requires Valid()
      modifies this
      ensures Valid() && go == Starts(old(State()), id) && State() == Started(old(State()), id, now, written)
    {
      if id !in jobs || jobs[id].record.status.Terminal() {
        return false;
      }
      var record := jobs[id].record.(status := Running, startedAt := Some(now));
      jobs := jobs[id := jobs[id].(record := record)];
      disk := Persist(disk, record, written);
      return true;
    }

    method Update(id: string, mutate: Record -> Record, written: bool)
      requires Valid() && forall r :: mutate(r).id == r.id
      modifies this
      ensures Valid() && State() == Updated(old(State()), id, mutate, written)
    {
      if id in jobs {
        var record := mutate(jobs[id].record);
        jobs := jobs[id := jobs[id].(record := record)];
        disk := Persist(disk, record, written);
      }
    }

    /** The handle to pull once the lock is released, if the cancel took effect. */
    method Cancel(id: string, now: int, written: bool) returns (r: Result<Option<nat>, string>)
      requires Valid()
      modifies this
      ensures Valid() && State() == CancelledIn(old(State()), id, now, written)
      ensures r.Ok? <==> Starts(old(State()), id)
      ensures r.Ok? ==> r.value == old(jobs)[id].abort
    {
      if id !in jobs {
        return Err("no such job: " + id);
      }
      var entry := jobs[id];
      if entry.record.status.Terminal() {
        return Err("job " + id + " already finished");
      }
      var record := entry.record.(status := Cancelled, finishedAt := Some(now), resultPath := None);
      jobs := jobs[id := Entry(record, None)];
      disk := Persist(disk, record, written);
      return Ok(entry.abort);
    }
  }
}

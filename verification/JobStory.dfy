/**
 What a job's record says, told from the steps of the run alone: who submitted what and when, when
 its work began, the last progress line, and which step ended it and how.
 */
module JobStory {
  import opened Wrappers
  import opened Jobs
  import opened JobProtocol

  /** How a job ended: its task wrote an outcome, a user cancelled it, or a restart found it unended. */
  datatype End = ByTask(outcome: Outcome, at: int) | ByCancel(at: int) | ByRestart(at: int)

  datatype Story = Story(
    sql: string, submitted: int, started: Option<int>, line: Option<string>, counts: nat, end: Option<End>)

  /** The story the running process knows, and the one in the job's file. */
  datatype Stories = Stories(memory: Option<Story>, file: Option<Story>)

  function Submission(sql: string, now: int): Option<Story> {
    Some(Story(sql, now, None, None, 0, None))
  }

  function Known(was: Stories, story: Story, written: bool): Stories {
    Stories(Some(story), if written then Some(story) else was.file)
  }

  /** Only the first end counts. */
  function Ending(story: Story, end: End): Story {
    if story.end.Some? then story else story.(end := Some(end))
  }

  /** One more step of the run. */
  function Continued(was: Stories, step: Step, id: string): Stories {
    match step
    case CreateFile(i, sql, now) => if i == id then was.(file := Submission(sql, now)) else was
    case CreateEntry(i, sql, now) => if i == id then was.(memory := Submission(sql, now)) else was
    case Restart(now, writes) =>
      if was.file.None? then was.(memory := None)
      else
        var story := Ending(was.file.value, ByRestart(now));
        Known(was, story, writes(id))
    case Start(i, now, written) =>
      if i == id && was.memory.Some? && was.memory.value.end.None?
      then Known(was, was.memory.value.(started := Some(now)), written) else was
    case Progress(i, line, funnel, written) =>
      if i == id && was.memory.Some?
      then Known(was, was.memory.value.(line := Some(line), counts := if funnel.Some? then funnel.value else was.memory.value.counts), written) else was
    case Done(i, outcome, now, written) =>
      if i == id && was.memory.Some? then Known(was, Ending(was.memory.value, ByTask(outcome, now)), written) else was
    case Cancel(i, now, written) =>
      if i == id && was.memory.Some? then Known(was, Ending(was.memory.value, ByCancel(now)), written) else was
    case _ => was
  }

  ghost function StoriesOf(maxConcurrent: nat, steps: seq<Step>, id: string): Stories {
    if steps == [] then Stories(None, None)
    else
      var earlier, step := steps[..|steps| - 1], steps[|steps| - 1];
      var was := StoriesOf(maxConcurrent, earlier, id);
      if Enabled(Exec(Boot(maxConcurrent), earlier), step) then Continued(was, step, id) else was
  }

  // ---- what the record says of it ----

  predicate Empty(r: Record) {
    r.rows.None? && r.commandTag.None? && r.error.None? && r.resultPath.None?
  }

  /** Each outcome has its status and its own fields, and no others are set. */
  predicate EndsAs(r: Record, end: Option<End>, begun: bool) {
    match end
    case None => r.status == (if begun then Running else Queued) && Empty(r) && r.finishedAt == None
    case Some(ByCancel(at)) => r.status == Cancelled && Empty(r) && r.finishedAt == Some(at)
    case Some(ByRestart(at)) =>
      && r.status == Interrupted && Empty(r.(error := None)) && r.finishedAt == Some(at)
      && r.error == Some("the server restarted while this job was running")
    case Some(ByTask(outcome, at)) =>
      && r.finishedAt == Some(at)
      && match outcome
         case Written(path, rows) =>
           r.status == Succeeded && r.resultPath == Some(path) && r.rows == Some(rows) && r.commandTag.None? && r.error.None?
         case Command(tag) => r.status == Succeeded && r.commandTag == Some(tag) && Empty(r.(commandTag := None))
         case Buffered =>
           r.status == Failed && r.error == Some("internal: job produced buffered rows") && Empty(r.(error := None))
         case Broken(message) => r.status == Failed && r.error == Some(message) && Empty(r.(error := None))
  }

  predicate Tells(r: Record, story: Story) {
    && r.sql == story.sql && r.submittedAt == story.submitted && r.startedAt == story.started
    && r.progress == story.line && r.funnel == story.counts
    && EndsAs(r, story.end, story.started.Some?)
  }

  /** Memory and file each hold a record exactly if they have a story, and that is what it says. */
  ghost predicate Recorded(s: State, id: string, stories: Stories) {
    && (id in s.store.jobs <==> stories.memory.Some?) && (id in s.store.disk <==> stories.file.Some?)
    && (id in s.store.jobs ==> Tells(s.store.jobs[id].record, stories.memory.value))
    && (id in s.store.disk ==> Tells(s.store.disk[id], stories.file.value))
  }

  // ---- one record and one step ----

  lemma StartTells(r: Record, story: Story, now: int)
    requires Tells(r, story)
    ensures r.status.Terminal() <==> story.end.Some?
    ensures story.end.None? ==> Tells(r.(status := Running, startedAt := Some(now)), story.(started := Some(now)))
  {
  }

  lemma ProgressTells(r: Record, story: Story, line: string, funnel: Option<nat>)
    requires Tells(r, story)
    ensures Progressed(line, funnel)(r).id == r.id
    ensures Tells(Progressed(line, funnel)(r), story.(line := Some(line), counts := if funnel.Some? then funnel.value else story.counts))
  {
  }

  lemma FinishTells(r: Record, story: Story, outcome: Outcome, now: int)
    requires Tells(r, story)
    ensures Finish(outcome, now)(r).id == r.id
    ensures Tells(Finish(outcome, now)(r), Ending(story, ByTask(outcome, now)))
  {
  }

  lemma CancelTells(r: Record, story: Story, now: int)
    requires Tells(r, story) && !r.status.Terminal()
    ensures CancelledRecord(r, now).id == r.id
    ensures Tells(CancelledRecord(r, now), Ending(story, ByCancel(now)))
  {
  }

  lemma RecoveryTells(r: Record, story: Story, now: int)
    requires Tells(r, story)
    ensures Tells(RecoveredRecord(r, now), Ending(story, ByRestart(now)))
    ensures r.status.Terminal() ==> Ending(story, ByRestart(now)) == story
  {
  }

  // ---- every step of a run ----

  lemma ChangeIsRecorded(s: State, id: string, record: Record, written: bool, was: Stories, story: Story, t: State)
    requires Recorded(s, id, was) && id in s.store.jobs && record.id == id && Tells(record, story)
    requires t.store.jobs == s.store.jobs[id := s.store.jobs[id].(record := record)]
             || t.store.jobs == s.store.jobs[id := Entry(record, None)]
    requires t.store.disk == Persist(s.store.disk, record, written)
    ensures Recorded(t, id, Known(was, story, written))
  {
    hide Tells;
  }

  /** Submitting a job, and the steps that leave its records alone. */
  lemma QuietStepIsRecorded(s: State, step: Step, was: Stories)
    requires step.CreateFile? || step.CreateEntry? || step.Attach? || step.Acquire? || step.DrainEnds? || step.AbortLands?
    requires Enabled(s, step) && JobOk(s, step.id) && Recorded(s, step.id, was)
    ensures Recorded(Apply(s, step), step.id, Continued(was, step, step.id))
  {
    if step.CreateFile? || step.CreateEntry? {
      assert Tells(NewRecord(step.id, step.sql, step.now), Submission(step.sql, step.now).value);
    }
    hide Tells;
  }

  lemma OwnStepIsRecorded(s: State, step: Step, was: Stories)
    requires step.Start? || step.Progress? || step.Done? || step.Cancel?
    requires Enabled(s, step) && JobOk(s, step.id) && Recorded(s, step.id, was)
    ensures Recorded(Apply(s, step), step.id, Continued(was, step, step.id))
  {
    hide Tells, Finish, Progressed, CancelledRecord;
    var id, t := step.id, Apply(s, step);
    if id in s.store.jobs {
      var r, story := s.store.jobs[id].record, was.memory.value;
      match step
      case Start(_, now, written) =>
        StartTells(r, story, now);
        if Starts(s.store, id) {
          ChangeIsRecorded(s, id, r.(status := Running, startedAt := Some(now)), written, was, story.(started := Some(now)), t);
        }
      case Progress(_, line, funnel, written) =>
        var next := story.(line := Some(line), counts := if funnel.Some? then funnel.value else story.counts);
        ProgressTells(r, story, line, funnel);
        ChangeIsRecorded(s, id, Progressed(line, funnel)(r), written, was, next, t);
      case Done(_, outcome, now, written) =>
        FinishTells(r, story, outcome, now);
        ChangeIsRecorded(s, id, Finish(outcome, now)(r), written, was, Ending(story, ByTask(outcome, now)), t);
      case Cancel(_, now, written) =>
        CancelTells(r, story, now);
        ChangeIsRecorded(s, id, CancelledRecord(r, now), written, was, Ending(story, ByCancel(now)), t);
    }
  }

  lemma RestartIsRecorded(s: State, now: int, writes: string -> bool, id: string, was: Stories)
    requires Recorded(s, id, was)
    ensures Recorded(Apply(s, Restart(now, writes)), id, Continued(was, Restart(now, writes), id))
  {
    var restart := Restart(now, writes);
    var t := Apply(s, restart).store;
    assert id in s.store.disk <==> id in t.jobs;
    assert id in s.store.disk <==> id in t.disk;
    if id in s.store.disk {
      var r, story := s.store.disk[id], was.file.value;
      assert t.jobs[id].record == RecoveredRecord(r, now);
      assert t.disk[id] == if writes(id) then RecoveredRecord(r, now) else r;
      RecoveryTells(r, story, now);
    }
    hide Tells, RecoveredRecord, Ending, Apply;
  }

  lemma OtherStepIsRecorded(s: State, step: Step, id: string, was: Stories)
    requires Enabled(s, step) && !step.Restart? && step.id != id && EntryOk(s, step.id) && Recorded(s, id, was)
    ensures Recorded(Apply(s, step), id, Continued(was, step, id))
  {
    StepTouchesOne(s, step, id);
    hide Apply, Enabled, Tells, EntryOk;
  }

  /** In every run, whatever the interleaving, restarts and failed writes included: a job's record, in
      memory and on file, tells the story of the steps taken. */
  lemma {:induction false} RecordsTellTheRun(maxConcurrent: nat, steps: seq<Step>, id: string)
    ensures Recorded(Exec(Boot(maxConcurrent), steps), id, StoriesOf(maxConcurrent, steps, id))
  {
    if steps != [] {
      var earlier, step := steps[..|steps| - 1], steps[|steps| - 1];
      var s, was := Exec(Boot(maxConcurrent), earlier), StoriesOf(maxConcurrent, earlier, id);
      RecordsTellTheRun(maxConcurrent, earlier, id);
      InvHolds(maxConcurrent, earlier);
      hide Recorded, Apply, Continued;
      if Enabled(s, step) {
        if step.Restart? {
          RestartIsRecorded(s, step.now, step.writes, id, was);
        } else {
          assert JobOk(s, step.id);
          if step.id != id {
            OtherStepIsRecorded(s, step, id, was);
          } else if step.Start? || step.Progress? || step.Done? || step.Cancel? {
            OwnStepIsRecorded(s, step, was);
          } else {
            QuietStepIsRecorded(s, step, was);
          }
        }
      }
    }
  }

  // ---- read the other way: what a record's fields prove about the run ----

  predicate TaskEnded(end: Option<End>) {
    end.Some? && end.value.ByTask?
  }

  predicate EndedWritten(end: Option<End>) {
    TaskEnded(end) && end.value.outcome.Written?
  }

  predicate EndedByCommand(end: Option<End>) {
    TaskEnded(end) && end.value.outcome.Command?
  }

  predicate EndedBroken(end: Option<End>) {
    TaskEnded(end) && (end.value.outcome.Buffered? || end.value.outcome.Broken?)
  }

  predicate ProvesItsEnd(r: Record, end: Option<End>) {
    && (r.status == Succeeded <==> EndedWritten(end) || EndedByCommand(end))
    && (r.status == Failed <==> EndedBroken(end))
    && (r.status == Cancelled <==> end.Some? && end.value.ByCancel?)
    && (r.status == Interrupted <==> end.Some? && end.value.ByRestart?)
    && (r.finishedAt.Some? <==> r.status.Terminal()) && (r.finishedAt.Some? ==> end.Some? && r.finishedAt.value == end.value.at)
    && (r.resultPath.Some? <==> EndedWritten(end)) && (r.resultPath.Some? ==> r.resultPath.value == end.value.outcome.path)
    && (r.rows.Some? <==> EndedWritten(end)) && (r.rows.Some? ==> r.rows.value == end.value.outcome.rows)
    && (r.commandTag.Some? <==> EndedByCommand(end)) && (r.commandTag.Some? ==> r.commandTag.value == end.value.outcome.tag)
    && (r.error.Some? <==> EndedBroken(end) || r.status == Interrupted)
    && (EndedBroken(end) && end.value.outcome.Broken? ==> r.error.value == end.value.outcome.message)
  }

  lemma TellingProves(r: Record, story: Story)
    requires Tells(r, story)
    ensures ProvesItsEnd(r, story.end)
  {
  }

  /** A status and every field of a result prove which step ended the job and what it brought: for the
      record in memory and, of the end it tells of, for the one on file. */
  lemma RecordsProveTheirEnd(maxConcurrent: nat, steps: seq<Step>, id: string)
    ensures
      var s, stories := Exec(Boot(maxConcurrent), steps).store, StoriesOf(maxConcurrent, steps, id);
      && (id in s.jobs ==> stories.memory.Some? && ProvesItsEnd(s.jobs[id].record, stories.memory.value.end))
      && (id in s.disk ==> stories.file.Some? && ProvesItsEnd(s.disk[id], stories.file.value.end))
  {
    var s, stories := Exec(Boot(maxConcurrent), steps).store, StoriesOf(maxConcurrent, steps, id);
    RecordsTellTheRun(maxConcurrent, steps, id);
    hide Exec, StoriesOf, Tells, ProvesItsEnd;
    if id in s.jobs {
      TellingProves(s.jobs[id].record, stories.memory.value);
    }
    if id in s.disk {
      TellingProves(s.disk[id], stories.file.value);
    }
  }

  // ---- nothing is written after the outcome ----

  /** A task that wrote its outcome is gone, and so is its drain. */
  ghost predicate TaskGone(s: State, id: string, was: Stories) {
    was.memory.Some? && TaskEnded(was.memory.value.end) ==>
      id in s.store.jobs && id !in s.drains && id !in s.tasks && id !in s.unattached
  }

  lemma TaskStaysGone(s: State, step: Step, id: string, was: Stories)
    requires Inv(s) && Enabled(s, step) && TaskGone(s, id, was) && Recorded(s, id, was)
    ensures TaskGone(Apply(s, step), id, Continued(was, step, id))
  {
    hide Tells;
    assert JobOk(s, id);
    if !step.Restart? && step.id != id {
      assert JobOk(s, step.id);
      StepTouchesOne(s, step, id);
    }
  }

  lemma {:induction false} TaskGoneInEveryRun(maxConcurrent: nat, steps: seq<Step>, id: string)
    ensures TaskGone(Exec(Boot(maxConcurrent), steps), id, StoriesOf(maxConcurrent, steps, id))
  {
    if steps != [] {
      var earlier, step := steps[..|steps| - 1], steps[|steps| - 1];
      var s, was := Exec(Boot(maxConcurrent), earlier), StoriesOf(maxConcurrent, earlier, id);
      TaskGoneInEveryRun(maxConcurrent, earlier, id);
      RecordsTellTheRun(maxConcurrent, earlier, id);
      InvHolds(maxConcurrent, earlier);
      hide Recorded, TaskGone, Apply, Continued, Inv;
      if Enabled(s, step) {
        TaskStaysGone(s, step, id, was);
      }
    }
  }

  lemma LeavesTheRecord(s: State, step: Step, id: string)
    requires Inv(s) && Enabled(s, step) && !step.Restart?
    requires id in s.store.jobs && id !in s.drains && id !in s.tasks && s.store.jobs[id].record.status.Terminal()
    ensures id in Apply(s, step).store.jobs && Apply(s, step).store.jobs[id].record == s.store.jobs[id].record
  {
    assert JobOk(s, id);
    if step.id != id {
      assert JobOk(s, step.id);
      StepTouchesOne(s, step, id);
    }
  }

  lemma QuietForTheStory(s: State, step: Step, id: string, was: Stories)
    requires Inv(s) && Enabled(s, step) && !step.Restart? && id in s.store.jobs
    requires id !in s.drains && id !in s.tasks && s.store.jobs[id].record.status.Terminal()
    ensures Continued(was, step, id).memory == was.memory
  {
    assert JobOk(s, id);
  }

  ghost predicate OneProcess(steps: seq<Step>) {
    forall i :: 0 <= i < |steps| ==> !steps[i].Restart?
  }

  /** Once the task has written its outcome the record is final while the process lives: the drain
      had ended by then, so not even a progress line follows. */
  lemma {:induction false} OutcomeIsLast(maxConcurrent: nat, before: seq<Step>, after: seq<Step>, id: string)
    requires OneProcess(after)
    requires
      var was := StoriesOf(maxConcurrent, before, id);
      was.memory.Some? && TaskEnded(was.memory.value.end)
    ensures
      var was, jobs := Exec(Boot(maxConcurrent), before).store.jobs, Exec(Boot(maxConcurrent), before + after).store.jobs;
      && id in was && id in jobs && jobs[id].record == was[id].record
      && StoriesOf(maxConcurrent, before + after, id).memory == StoriesOf(maxConcurrent, before, id).memory
  {
    if after == [] {
      assert before + after == before;
      RecordsTellTheRun(maxConcurrent, before, id);
    } else {
      var n := |after| - 1;
      var earlier, step := before + after[..n], after[n];
      var s, was := Exec(Boot(maxConcurrent), earlier), StoriesOf(maxConcurrent, earlier, id);
      assert (before + after)[..|before + after| - 1] == earlier;
      OutcomeIsLast(maxConcurrent, before, after[..n], id);
      InvHolds(maxConcurrent, earlier);
      TaskGoneInEveryRun(maxConcurrent, earlier, id);
      RecordsProveTheirEnd(maxConcurrent, earlier, id);
      if Enabled(s, step) {
        LeavesTheRecord(s, step, id);
        QuietForTheStory(s, step, id, was);
      }
    }
  }
}

/**
 What a flush delivers: which of the verdicts stored before it are in the file once it has
 been answered.
 */
module CacheFlush {
  import opened Wrappers
  import opened VerdictCache
  import opened CacheProtocol
  import opened CacheAtomicity
  import opened CacheAnswers
  import opened CacheWriter
  import opened CacheTracking

  lemma {:induction false} NotYetOpen(disk: Table, steps: seq<Step>, i: nat, succeeds: bool, k: CacheKey)
    requires i >= Exec(Start(disk), steps).nextId
    ensures !Handed(disk, steps, i, succeeds, k)
  {
    if steps != [] {
      var earlier := steps[..|steps| - 1];
      NotYetOpen(disk, earlier, i, succeeds, k);
      AnswersHold(disk, earlier);
    }
  }

  lemma {:induction false} Tracks(disk: Table, steps: seq<Step>, i: nat, k: CacheKey)
    requires Untampered(steps) && i in Exec(Start(disk), steps).instances
    ensures
      var s := Exec(Start(disk), steps);
      Tracked(s.instances[i], s.disk, k, Wrote(disk, steps, i, k), Lost(disk, steps, i, k))
  {
    var earlier, step := steps[..|steps| - 1], steps[|steps| - 1];
    var before := Exec(Start(disk), earlier);
    AnswersHold(disk, earlier);
    if i in before.instances {
      Tracks(disk, earlier, i, k);
      hide Tracked;
      if Enabled(before, step) {
        TrackStep(before, step, i, k, Handed(disk, earlier, i, true, k), Handed(disk, earlier, i, false, k));
      }
    } else {
      assert step == Open && i == before.nextId;
      NotYetOpen(disk, earlier, i, true, k);
      NotYetOpen(disk, earlier, i, false, k);
    }
  }

  /** A step puts a key in the file exactly when it commits it. */
  lemma StepOnFile(s: State, step: Step, k: CacheKey)
    requires !step.Tamper?
    ensures k in Next(s, step).disk <==> k in s.disk || (step.Commit? && Commits(s, step, step.i, true, k))
  {
    if step.Commit? && Enabled(s, step) {
      FirstWinsIsUnion(s.disk, Flatten(s.instances[step.i].batch));
    }
  }

  /** Nobody tampering, a key is in the file exactly if it was there or a transaction put it there. */
  lemma {:induction false} OnFile(disk: Table, steps: seq<Step>, k: CacheKey)
    requires Untampered(steps)
    ensures k in Exec(Start(disk), steps).disk <==> k in disk || exists j :: Wrote(disk, steps, j, k)
  {
    if steps == [] {
      assert forall j :: !Wrote(disk, steps, j, k);
    } else {
      var earlier, step := steps[..|steps| - 1], steps[|steps| - 1];
      OnFile(disk, earlier, k);
      StepOnFile(Exec(Start(disk), earlier), step, k);
      if j :| Wrote(disk, earlier, j, k) {
        assert Wrote(disk, steps, j, k);
      }
      if step.Commit? && Commits(Exec(Start(disk), earlier), step, step.i, true, k) {
        assert Wrote(disk, steps, step.i, k);
      }
      if j :| Wrote(disk, steps, j, k) {
        assert Wrote(disk, earlier, j, k) || Commits(Exec(Start(disk), earlier), step, j, true, k);
      }
    }
  }

  /** Where a stored verdict is, exactly: in the file unless it is still underway or was in a
      transaction that failed; and then only if somebody else put the key there. */
  lemma StoredIsOnFileIff(disk: Table, steps: seq<Step>, i: nat, k: CacheKey)
    requires Untampered(steps) && i in Exec(Start(disk), steps).instances
    requires k in Exec(Start(disk), steps).instances[i].stored
    ensures
      var s := Exec(Start(disk), steps);
      k in s.disk <==>
        FromElsewhere(disk, steps, i, k) || !(Underway(s.instances[i], k) || Lost(disk, steps, i, k))
  {
    var s := Exec(Start(disk), steps);
    var inst, written, lost := s.instances[i], Wrote(disk, steps, i, k), Lost(disk, steps, i, k);
    Tracks(disk, steps, i, k);
    OnFile(disk, steps, k);
    hide Exec, Wrote, Lost, Underway, Accounted, Once, LoadsFrom;
    if written {
      LoggedIsNotUnderway(inst, k);
    }
    if FromElsewhere(disk, steps, i, k) {
      assert k in s.disk;
    } else if k in s.disk {
      var j :| Wrote(disk, steps, j, k);
      assert j == i;
    }
  }

  // ---- a flush and what came before it ----

  /** The flush that was message `n` of the channel has been answered. */
  ghost predicate Answered(inst: Instance, n: nat) {
    exists j :: 0 <= j < |inst.trace| && inst.trace[j].Replied? && |Messages(inst.trace[..j])| == n
  }

  ghost predicate Grows(inst: Instance, after: Instance) {
    inst.sent <= after.sent && Within(inst.stored, after.stored) && Messages(inst.trace) <= Messages(after.trace)
  }

  lemma OwnStepGrows(s: State, step: Step)
    requires !step.Open? && !step.Tamper? && !step.Exit? && !step.Crash? && !step.Hit? && Enabled(s, step)
    ensures Grows(s.instances[step.i], Apply(s, step).instances[step.i])
  {
    hide Flatten, Messages, FreshRows;
    var inst := s.instances[step.i];
    match step
    case Commit(_, _) => LogGrows(inst.trace, Transaction(inst.batch));
    case Reply(_) => LogGrows(inst.trace, Replied(inst.flush.value));
    case _ =>
  }

  lemma InstanceOnlyGrows(s: State, step: Step, i: nat)
    requires AnswersInv(s) && i in s.instances && i in Next(s, step).instances && !step.Tamper?
    ensures Grows(s.instances[i], Next(s, step).instances[i])
  {
    if Enabled(s, step) {
      assert i != s.nextId && (step.Exit? || step.Crash? ==> step.i != i);
      hide Apply, AnswersInv;
      if step.Open? || step.Hit? || step.i != i {
        OthersKeepOut(s, step, i);
      } else {
        OwnStepGrows(s, step);
      }
    }
  }

  /** Ids are never reused, so an instance that is here has been here all along. */
  lemma {:induction false} StillOpen(s: State, steps: seq<Step>, i: nat)
    requires AnswersInv(s)
    ensures AnswersInv(Exec(s, steps)) && Exec(s, steps).nextId >= s.nextId
    ensures i < s.nextId && i in Exec(s, steps).instances && steps != [] ==> i in Exec(s, steps[..|steps| - 1]).instances
  {
    if steps != [] {
      StillOpen(s, steps[..|steps| - 1], i);
      AnswersStep(Exec(s, steps[..|steps| - 1]), steps[|steps| - 1]);
    }
  }

  lemma {:induction false} RunOnlyGrows(s: State, steps: seq<Step>, i: nat)
    requires AnswersInv(s) && i in s.instances && i in Exec(s, steps).instances && Untampered(steps)
    ensures Grows(s.instances[i], Exec(s, steps).instances[i])
  {
    if steps != [] {
      var earlier, step := steps[..|steps| - 1], steps[|steps| - 1];
      StillOpen(s, steps, i);
      StillOpen(s, earlier, i);
      RunOnlyGrows(s, earlier, i);
      hide Next;
      InstanceOnlyGrows(Exec(s, earlier), step, i);
    }
  }

  lemma {:induction false} FileOnlyGrows(s: State, steps: seq<Step>)
    requires Untampered(steps)
    ensures Within(s.disk, Exec(s, steps).disk)
  {
    if steps != [] {
      FileOnlyGrows(s, steps[..|steps| - 1]);
      forall k | k in s.disk ensures k in Exec(s, steps).disk {
        StepOnFile(Exec(s, steps[..|steps| - 1]), steps[|steps| - 1], k);
      }
    }
  }

  /** The run up to the flush request, and on from it. */
  function WithFlush(before: seq<Step>, i: nat, id: nat, after: seq<Step>): seq<Step> {
    before + ([RequestFlush(i, id)] + after)
  }

  lemma FlushIsSent(s: State, i: nat, id: nat, after: seq<Step>)
    requires AnswersInv(s) && i in s.instances && s.instances[i].open
    requires Untampered(after) && i in Exec(s, [RequestFlush(i, id)] + after).instances
    ensures
      var inst, later := s.instances[i], Exec(s, [RequestFlush(i, id)] + after).instances[i];
      Grows(inst, later) && inst.sent + [Flush(id)] <= later.sent
  {
    var first: seq<Step> := [RequestFlush(i, id)];
    ExecAppends(s, first, after);
    assert first[..0] == [] && Exec(s, first) == Next(s, RequestFlush(i, id));
    AnswersStep(s, RequestFlush(i, id));
    RunOnlyGrows(Next(s, RequestFlush(i, id)), after, i);
  }

  lemma AnsweredPrefix(inst: Instance, later: Instance)
    requires Accounted(later) && inst.sent <= later.sent && Answered(later, |inst.sent|)
    ensures inst.sent <= Messages(later.trace)
  {
    var j :| 0 <= j < |later.trace| && later.trace[j].Replied? && |Messages(later.trace[..j])| == |inst.sent|;
    MessagesPrefix(later.trace, j);
  }

  /** What was in the channel before an answered flush is logged. */
  lemma SentBeforeIsLogged(inst: Instance, later: Instance, k: CacheKey)
    requires Accounted(inst) && Accounted(later) && inst.sent <= later.sent
    requires Answered(later, |inst.sent|) && Among(Backlog(inst), k)
    ensures Among(Messages(later.trace), k)
  {
    AnsweredPrefix(inst, later);
    var backlog, logged := Backlog(inst), Messages(later.trace);
    assert inst.sent == Messages(inst.trace) + backlog;
    hide Accounted, Backlog, Answered, Messages, Among;
    AmongAppends(Messages(inst.trace), backlog, k);
    AmongAppends(inst.sent, logged[|inst.sent|..], k);
    assert logged == inst.sent + logged[|inst.sent|..];
  }

  /** A run in which the flush requested at the end of `before` has been answered. */
  ghost predicate FlushAnswered(disk: Table, before: seq<Step>, i: nat, id: nat, after: seq<Step>) {
    var s, later := Exec(Start(disk), before), Exec(Start(disk), WithFlush(before, i, id, after));
    && Untampered(before) && Untampered(after)
    && i in s.instances && s.instances[i].open && i in later.instances
    && Answered(later.instances[i], |s.instances[i].sent|)
  }

  lemma FlushedRun(disk: Table, before: seq<Step>, i: nat, id: nat, after: seq<Step>)
    requires FlushAnswered(disk, before, i, id, after)
    ensures
      var s, later := Exec(Start(disk), before), Exec(Start(disk), WithFlush(before, i, id, after));
      && Untampered(WithFlush(before, i, id, after))
      && Grows(s.instances[i], later.instances[i]) && Within(s.disk, later.disk)
      && Accounted(s.instances[i]) && Accounted(later.instances[i])
  {
    var steps, rest := WithFlush(before, i, id, after), [RequestFlush(i, id)] + after;
    ExecAppends(Start(disk), before, rest);
    AnswersHold(disk, before);
    WriterKeepsOrder(disk, before);
    WriterKeepsOrder(disk, steps);
    hide Exec, AnswersInv, Grows, Accounted, Answered;
    FlushIsSent(Exec(Start(disk), before), i, id, after);
    FileOnlyGrows(Exec(Start(disk), before), rest);
  }

  lemma WasLoggedOrSent(inst: Instance, later: Instance, k: CacheKey)
    requires Grows(inst, later) && Accounted(inst) && Accounted(later) && Once(later, k)
    requires Answered(later, |inst.sent|)
    requires Among(Messages(inst.trace), k) || Among(Backlog(inst), k)
    ensures !Underway(later, k)
  {
    if Among(Backlog(inst), k) {
      SentBeforeIsLogged(inst, later, k);
    } else {
      var logged, more := Messages(inst.trace), Messages(later.trace);
      assert more == logged + more[|logged|..];
      AmongAppends(logged, more[|logged|..], k);
    }
    LoggedIsNotUnderway(later, k);
  }

  /** Once a flush has been answered, only what was between a store's lock section and its send
      when the flush was requested can still be underway. */
  lemma OnlyUnsentIsUnderway(disk: Table, before: seq<Step>, i: nat, id: nat, after: seq<Step>, k: CacheKey)
    requires FlushAnswered(disk, before, i, id, after)
    requires k in Exec(Start(disk), before).instances[i].stored
    ensures
      var s, later := Exec(Start(disk), before), Exec(Start(disk), WithFlush(before, i, id, after));
      Underway(later.instances[i], k) ==> k in s.disk || BeingSent(s.instances[i], k)
  {
    var s, steps := Exec(Start(disk), before), WithFlush(before, i, id, after);
    var later := Exec(Start(disk), steps);
    FlushedRun(disk, before, i, id, after);
    Tracks(disk, before, i, k);
    Tracks(disk, steps, i, k);
    hide Exec, Once, Answered, Accounted, LoadsFrom, WithFlush, Wrote, Lost, Among;
    if k !in s.disk && !BeingSent(s.instances[i], k) {
      WasLoggedOrSent(s.instances[i], later.instances[i], k);
    }
  }

  /** What a flush delivers, exactly. Once it has been answered, a verdict stored before it is in
      the file unless it was in a transaction that failed or is still underway, and the latter
      only if its store had not sent it when the flush was requested. */
  lemma FlushDelivers(disk: Table, before: seq<Step>, i: nat, id: nat, after: seq<Step>, k: CacheKey)
    requires FlushAnswered(disk, before, i, id, after)
    requires k in Exec(Start(disk), before).instances[i].stored
    ensures
      var s, steps := Exec(Start(disk), before), WithFlush(before, i, id, after);
      var later := Exec(Start(disk), steps);
      && (k in later.disk <==>
            FromElsewhere(disk, steps, i, k) || !(Underway(later.instances[i], k) || Lost(disk, steps, i, k)))
      && (Underway(later.instances[i], k) ==> k in s.disk || BeingSent(s.instances[i], k))
  {
    var steps := WithFlush(before, i, id, after);
    FlushedRun(disk, before, i, id, after);
    hide Exec, FlushAnswered, Accounted, WithFlush, FromElsewhere, Underway, Lost, BeingSent;
    StoredIsOnFileIff(disk, steps, i, k);
    OnlyUnsentIsUnderway(disk, before, i, id, after, k);
  }

  // ---- when the documented promise is kept ----

  ghost predicate NoneFails(steps: seq<Step>, i: nat) {
    forall j :: 0 <= j < |steps| ==> steps[j] != Commit(i, false)
  }

  lemma {:induction false} LostEarlier(disk: Table, a: seq<Step>, b: seq<Step>, i: nat, k: CacheKey)
    requires NoneFails(b, i)
    ensures Lost(disk, a + b, i, k) <==> Lost(disk, a, i, k)
  {
    if b == [] {
      assert a + b == a;
    } else {
      var earlier, last := b[..|b| - 1], b[|b| - 1];
      assert (a + b)[..|a + b| - 1] == a + earlier && b == earlier + [last];
      LostEarlier(disk, a, earlier, i, k);
      assert !Commits(Exec(Start(disk), a + earlier), last, i, false, k);
    }
  }

  /** Everything sent before an answered flush is in the file, if none of the instance's
      transactions failed. */
  lemma SentBeforeFlushIsOnFile(disk: Table, before: seq<Step>, i: nat, id: nat, after: seq<Step>, k: CacheKey)
    requires FlushAnswered(disk, before, i, id, after) && NoneFails(WithFlush(before, i, id, after), i)
    requires Among(Exec(Start(disk), before).instances[i].sent, k)
    ensures k in Exec(Start(disk), WithFlush(before, i, id, after)).disk
  {
    var s, steps := Exec(Start(disk), before), WithFlush(before, i, id, after);
    var inst, later := s.instances[i], Exec(Start(disk), steps).instances[i];
    FlushedRun(disk, before, i, id, after);
    Tracks(disk, steps, i, k);
    LostEarlier(disk, [], steps, i, k);
    assert [] + steps == steps && !Lost(disk, [], i, k);
    hide Exec, Accounted, Lost, Wrote, WithFlush, Messages, Among;
    AnsweredPrefix(inst, later);
    var logged := Messages(later.trace);
    assert logged == inst.sent + logged[|inst.sent|..];
    AmongAppends(inst.sent, logged[|inst.sent|..], k);
  }

  /** What the writer does next if left alone. */
  function NextWrite(inst: Instance, i: nat): Step
    requires inst.batch != [] || inst.flush.Some? || inst.channel != []
  {
    if inst.batch != [] then Commit(i, true)
    else if inst.flush.Some? then Reply(i)
    else Take(i)
  }

  ghost predicate WriterSteps(steps: seq<Step>, i: nat) {
    forall j :: 0 <= j < |steps| ==> steps[j] == Take(i) || steps[j] == Commit(i, true) || steps[j] == Reply(i)
  }

  function Work(inst: Instance): nat {
    3 * |inst.channel| + (if inst.batch != [] then 1 else 0) + if inst.flush.Some? then 1 else 0
  }

  /** Everything of an instance and its state that the writer leaves alone. */
  ghost predicate OnlyWritten(s: State, after: State, i: nat) {
    && i in s.instances && after.instances.Keys == s.instances.Keys && after.nextId == s.nextId
    && var inst, later := s.instances[i], after.instances[i];
       later.sent == inst.sent && later.calls == inst.calls && later.open == inst.open && later.stored == inst.stored
  }

  lemma NextWriteWorks(s: State, i: nat)
    requires i in s.instances && Work(s.instances[i]) > 0
    ensures
      var step := NextWrite(s.instances[i], i);
      && Enabled(s, step) && OnlyWritten(s, Apply(s, step), i)
      && Work(Apply(s, step).instances[i]) < Work(s.instances[i])
  {
    assert RowCount([]) == 0;
    hide Flatten, FirstWins;
    assert Apply(s, NextWrite(s.instances[i], i)).instances.Keys == s.instances.Keys;
  }

  lemma NextWriteWrites(s: State, i: nat, k: CacheKey)
    requires i in s.instances && Work(s.instances[i]) > 0
    ensures
      var step := NextWrite(s.instances[i], i);
      Enabled(s, step) && i in Apply(s, step).instances
    ensures
      var s' := Apply(s, NextWrite(s.instances[i], i));
      k in s'.disk || Among(Backlog(s'.instances[i]), k) ==> k in s.disk || Among(Backlog(s.instances[i]), k)
  {
    NextWriteWorks(s, i);
    var inst, after := s.instances[i], Apply(s, NextWrite(s.instances[i], i)).instances[i];
    if inst.batch != [] {
      var messages, rest := RowsMessages(inst.batch), FlushMessage(inst.flush) + inst.channel;
      assert Backlog(inst) == messages + rest && Backlog(after) == rest;
      BatchCarries(inst.batch, k);
      FirstWinsIsUnion(s.disk, Flatten(inst.batch));
      AmongAppends(messages, rest, k);
    } else if inst.flush.Some? {
      assert Backlog(inst) == FlushMessage(inst.flush) + inst.channel && Backlog(after) == inst.channel;
      AmongAppends(FlushMessage(inst.flush), inst.channel, k);
    } else {
      TakeKeepsBacklog(inst, after);
    }
  }

  /** Left alone, the writer empties the channel, and writes nothing that was not in it. */
  lemma {:induction false} Drain(s: State, i: nat) returns (steps: seq<Step>)
    requires i in s.instances
    ensures WriterSteps(steps, i) && OnlyWritten(s, Exec(s, steps), i)
    ensures Backlog(Exec(s, steps).instances[i]) == []
    ensures forall k :: k in Exec(s, steps).disk ==> k in s.disk || Among(Backlog(s.instances[i]), k)
    decreases Work(s.instances[i])
  {
    steps := [];
    if Work(s.instances[i]) > 0 {
      var step := NextWrite(s.instances[i], i);
      var s' := Next(s, step);
      NextWriteWorks(s, i);
      var rest := Drain(s', i);
      var first: seq<Step> := [step];
      steps := first + rest;
      ExecAppends(s, first, rest);
      assert first[..0] == [] && Exec(s, first) == s';
      forall k | k in Exec(s, steps).disk ensures k in s.disk || Among(Backlog(s.instances[i]), k) {
        NextWriteWrites(s, i, k);
      }
    }
  }

  lemma {:induction false} OnlyRows(groups: seq<seq<Row>>, n: nat)
    requires n < |RowsMessages(groups)|
    ensures RowsMessages(groups)[n].Rows?
  {
    if n < |RowsMessages(groups[..|groups| - 1])| {
      OnlyRows(groups[..|groups| - 1], n);
    }
  }

  /** A flush in the log is one that was answered. */
  lemma {:induction false} LogAnswers(trace: seq<Event>, n: nat)
    requires n < |Messages(trace)| && Messages(trace)[n].Flush?
    ensures exists j :: 0 <= j < |trace| && trace[j].Replied? && |Messages(trace[..j])| == n
  {
    var earlier, last := trace[..|trace| - 1], |trace| - 1;
    if n < |Messages(earlier)| {
      LogAnswers(earlier, n);
      var j :| 0 <= j < |earlier| && earlier[j].Replied? && |Messages(earlier[..j])| == n;
      assert trace[..j] == earlier[..j];
    } else if trace[last].Transaction? {
      OnlyRows(trace[last].groups, n - |Messages(earlier)|);
    } else {
      assert trace[..last] == earlier;
    }
  }

  lemma DrainedIsAnswered(inst: Instance, n: nat)
    requires Accounted(inst) && Backlog(inst) == [] && n < |inst.sent| && inst.sent[n].Flush?
    ensures Answered(inst, n)
  {
    assert inst.sent == Messages(inst.trace) + Backlog(inst);
    LogAnswers(inst.trace, n);
  }

  /** Ask for a flush and leave the writer alone. */
  lemma FlushAndDrain(s: State, i: nat) returns (after: seq<Step>)
    requires i in s.instances && s.instances[i].open
    ensures Untampered(after) && NoneFails(after, i)
    ensures
      var later := Exec(s, [RequestFlush(i, 0)] + after);
      && i in later.instances && later.instances[i].sent == s.instances[i].sent + [Flush(0)]
      && Backlog(later.instances[i]) == []
      && forall k :: k in later.disk ==> k in s.disk || Among(Backlog(s.instances[i]), k)
  {
    var first: seq<Step> := [RequestFlush(i, 0)];
    var inst, s' := s.instances[i], Next(s, RequestFlush(i, 0));
    after := Drain(s', i);
    ExecAppends(s, first, after);
    assert first[..0] == [] && Exec(s, first) == s';
    assert Backlog(s'.instances[i]) == Backlog(inst) + [Flush(0)];
    forall k | k in Exec(s, first + after).disk ensures k in s.disk || Among(Backlog(inst), k) {
      AmongOne(Flush(0), k);
      AmongAppends(Backlog(inst), [Flush(0)], k);
    }
  }

  lemma DrainAnswers(disk: Table, before: seq<Step>, i: nat) returns (after: seq<Step>)
    requires Untampered(before) && i in Exec(Start(disk), before).instances && Exec(Start(disk), before).instances[i].open
    ensures FlushAnswered(disk, before, i, 0, after) && NoneFails(after, i)
    ensures
      var s := Exec(Start(disk), before);
      forall k :: k in Exec(Start(disk), WithFlush(before, i, 0, after)).disk ==> k in s.disk || Among(Backlog(s.instances[i]), k)
  {
    var s := Exec(Start(disk), before);
    after := FlushAndDrain(s, i);
    ExecAppends(Start(disk), before, [RequestFlush(i, 0)] + after);
    WriterKeepsOrder(disk, WithFlush(before, i, 0, after));
    var later := Exec(Start(disk), WithFlush(before, i, 0, after));
    assert Accounted(later.instances[i]);
    hide Exec, Accounted, Backlog, Answered, Among, Untampered;
    DrainedIsAnswered(later.instances[i], |s.instances[i].sent|);
  }

  /** The verdict of `k` is stored, and a flush asked for now is sure to leave it in the file. */
  ghost predicate SafeToFlush(disk: Table, before: seq<Step>, i: nat, k: CacheKey)
    requires i in Exec(Start(disk), before).instances
  {
    var s := Exec(Start(disk), before);
    k in s.disk || !(BeingSent(s.instances[i], k) || Lost(disk, before, i, k))
  }

  lemma SafeFlush(disk: Table, before: seq<Step>, i: nat, id: nat, after: seq<Step>, k: CacheKey)
    requires FlushAnswered(disk, before, i, id, after) && NoneFails(after, i)
    requires k in Exec(Start(disk), before).instances[i].stored && SafeToFlush(disk, before, i, k)
    ensures k in Exec(Start(disk), WithFlush(before, i, id, after)).disk
  {
    FlushedRun(disk, before, i, id, after);
    LostEarlier(disk, before, [RequestFlush(i, id)] + after, i, k);
    hide Exec, FlushAnswered, Accounted, FromElsewhere, Underway, Lost, BeingSent, Grows;
    FlushDelivers(disk, before, i, id, after, k);
  }

  lemma NotInBacklog(inst: Instance, disk: Table, k: CacheKey, written: bool, lost: bool)
    requires Tracked(inst, disk, k, written, lost) && (lost || BeingSent(inst, k))
    ensures !Among(Backlog(inst), k)
  {
    if lost {
      LoggedIsNotUnderway(inst, k);
    } else {
      assert inst.sent == Messages(inst.trace) + Backlog(inst);
      AmongAppends(Messages(inst.trace), Backlog(inst), k);
    }
  }

  lemma UnsafeFlush(disk: Table, before: seq<Step>, i: nat, k: CacheKey)
    requires Untampered(before) && i in Exec(Start(disk), before).instances && Exec(Start(disk), before).instances[i].open
    requires k in Exec(Start(disk), before).instances[i].stored && !SafeToFlush(disk, before, i, k)
    ensures exists after ::
      FlushAnswered(disk, before, i, 0, after) && NoneFails(after, i) && k !in Exec(Start(disk), WithFlush(before, i, 0, after)).disk
  {
    var s := Exec(Start(disk), before);
    Tracks(disk, before, i, k);
    NotInBacklog(s.instances[i], s.disk, k, Wrote(disk, before, i, k), Lost(disk, before, i, k));
    hide Tracked, FlushAnswered, NoneFails, WithFlush, Among, Exec;
    var after := DrainAnswers(disk, before, i);
  }

  /** The promise that all verdicts stored up to then are in the file once `flush` returns, as long
      as none of its transactions fails from now on: it is kept, whatever happens meanwhile,
      exactly when no stored verdict the file lacks is waiting to be sent or was already lost. */
  lemma FlushPromiseIff(disk: Table, before: seq<Step>, i: nat)
    requires Untampered(before) && i in Exec(Start(disk), before).instances && Exec(Start(disk), before).instances[i].open
    ensures
      (forall id, after, k {:trigger FlushAnswered(disk, before, i, id, after), SafeToFlush(disk, before, i, k)} ::
         FlushAnswered(disk, before, i, id, after) && NoneFails(after, i) && k in Exec(Start(disk), before).instances[i].stored
         ==> k in Exec(Start(disk), WithFlush(before, i, id, after)).disk)
      <==>
      (forall k :: k in Exec(Start(disk), before).instances[i].stored ==> SafeToFlush(disk, before, i, k))
  {
    var s := Exec(Start(disk), before);
    var inst := s.instances[i];
    if k :| k in inst.stored && !SafeToFlush(disk, before, i, k) {
      UnsafeFlush(disk, before, i, k);
    } else {
      forall id, after, k | FlushAnswered(disk, before, i, id, after) && NoneFails(after, i) && k in inst.stored
        ensures k in Exec(Start(disk), WithFlush(before, i, id, after)).disk
      {
        SafeFlush(disk, before, i, id, after, k);
      }
    }
  }

  // ---- two runs in which it is not ----

  /** A single instance on an empty file. */
  function Alone(inst: Instance): State {
    State(map[], map[0 := inst], 1, {inst.stored}, {})
  }

  /** It holds a verdict its call has not sent. */
  function Unsent(k: CacheKey, w: CachedValue): Instance {
    NEW_INSTANCE.(stored := map[k := w], calls := map[0 := Sending([Row(k, w)])])
  }

  lemma StoringOne(k: CacheKey, w: CachedValue)
    ensures Exec(Start(map[]), [Open, Store(0, 0, [Row(k, w)])]) == Alone(Unsent(k, w))
  {
    OneRow(map[], Row(k, w));
    Exec2(Start(map[]), Open, Store(0, 0, [Row(k, w)]));
    assert Next(Start(map[]), Open) == State(map[], map[0 := NEW_INSTANCE], 1, {}, {});
  }

  lemma Requested(inst: Instance)
    requires inst.open
    ensures Next(Alone(inst), RequestFlush(0, 7)) ==
      Alone(inst.(channel := inst.channel + [Flush(7)], sent := inst.sent + [Flush(7)]))
  {
  }

  lemma Taken(inst: Instance, message: Message, rest: seq<Message>)
    requires inst.channel == [message] + rest && inst.flush.None? && inst.batch == []
    ensures Next(Alone(inst), Take(0)) ==
      Alone(match message
            case Rows(rows) => inst.(channel := rest, batch := [rows])
            case Flush(id) => inst.(channel := rest, flush := Some(id)))
  {
    assert RowCount([]) == 0;
    assert inst.channel[0] == message && inst.channel[1..] == rest;
    assert message.Rows? ==> inst.batch + [message.rows] == [message.rows];
  }

  lemma FailedCommit(inst: Instance)
    requires inst.batch != []
    ensures Next(Alone(inst), Commit(0, false)) ==
      Alone(inst.(batch := [], trace := inst.trace + [Transaction(inst.batch)]))
  {
  }

  /** The writer takes the flush and answers it. */
  lemma TakenAndAnswered(inst: Instance)
    requires inst.channel == [Flush(7)] && inst.flush.None? && inst.batch == []
    ensures Exec(Alone(inst), [Take(0), Reply(0)]) == Alone(inst.(channel := [], trace := inst.trace + [Replied(7)]))
  {
    Exec2(Alone(inst), Take(0), Reply(0));
    Taken(inst, Flush(7), []);
  }

  /** The run up to a flush, the flush, and what follows, step by step. */
  lemma RunWithFlush(disk: Table, before: seq<Step>, after: seq<Step>)
    ensures Exec(Start(disk), WithFlush(before, 0, 7, after))
         == Exec(Next(Exec(Start(disk), before), RequestFlush(0, 7)), after)
  {
    var first: seq<Step> := [RequestFlush(0, 7)];
    ExecAppends(Start(disk), before, first + after);
    ExecAppends(Exec(Start(disk), before), first, after);
    assert first[..0] == [];
  }

  lemma AnswersFirst(inst: Instance)
    requires inst.trace == [Replied(7)]
    ensures Answered(inst, 0)
  {
    assert inst.trace[..0] == [] && inst.trace[0].Replied?;
  }

  /** A flush asked for between a store's lock section and its send is answered without it. */
  lemma FlushMissesWhatIsNotSent(k: CacheKey, w: CachedValue)
    ensures
      var before, after := [Open, Store(0, 0, [Row(k, w)])], [Take(0), Reply(0)];
      && FlushAnswered(map[], before, 0, 7, after)
      && k in Exec(Start(map[]), before).instances[0].stored
      && k !in Exec(Start(map[]), WithFlush(before, 0, 7, after)).disk
  {
    var before, after := [Open, Store(0, 0, [Row(k, w)])], [Take(0), Reply(0)];
    var inst := Unsent(k, w);
    var asked := inst.(channel := [Flush(7)], sent := [Flush(7)]);
    StoringOne(k, w);
    RunWithFlush(map[], before, after);
    Requested(inst);
    TakenAndAnswered(asked);
    AnswersFirst(asked.(channel := [], trace := [Replied(7)]));
    hide Exec, Answered, Next;
    assert inst.channel + [Flush(7)] == [Flush(7)] == inst.sent + [Flush(7)];
    assert Next(Alone(inst), RequestFlush(0, 7)) == Alone(asked);
    assert asked.trace + [Replied(7)] == [Replied(7)];
  }

  lemma SendingOne(k: CacheKey, w: CachedValue)
    ensures
      var rows := [Row(k, w)];
      Exec(Start(map[]), [Open, Store(0, 0, rows), Send(0, 0)]) ==
      Alone(NEW_INSTANCE.(stored := map[k := w], channel := [Rows(rows)], sent := [Rows(rows)]))
  {
    var steps := [Open, Store(0, 0, [Row(k, w)]), Send(0, 0)];
    assert steps[..2] == [Open, Store(0, 0, [Row(k, w)])];
    StoringOne(k, w);
    var inst, rows := Unsent(k, w), [Row(k, w)];
    assert inst.calls - {0} == map[] && inst.channel + [Rows(rows)] == [Rows(rows)] == inst.sent + [Rows(rows)];
    assert Exec(Start(map[]), steps) == Next(Alone(inst), Send(0, 0));
  }

  lemma FailedAndAnswered(inst: Instance, rows: seq<Row>)
    requires inst.channel == [Rows(rows), Flush(7)] && inst.flush.None? && inst.batch == [] && inst.trace == []
    ensures Exec(Alone(inst), [Take(0), Commit(0, false)] + [Take(0), Reply(0)]) ==
      Alone(inst.(channel := [], trace := [Transaction([rows]), Replied(7)]))
  {
    var failed := inst.(channel := [Flush(7)], trace := [Transaction([rows])]);
    ExecAppends(Alone(inst), [Take(0), Commit(0, false)], [Take(0), Reply(0)]);
    Exec2(Alone(inst), Take(0), Commit(0, false));
    assert inst.channel == [Rows(rows)] + [Flush(7)];
    Taken(inst, Rows(rows), [Flush(7)]);
    FailedCommit(inst.(channel := [Flush(7)], batch := [rows]));
    assert inst.trace + [Transaction([rows])] == [Transaction([rows])];
    TakenAndAnswered(failed);
    assert failed.trace + [Replied(7)] == [Transaction([rows]), Replied(7)];
  }

  lemma AnswersSecond(inst: Instance, rows: seq<Row>)
    requires inst.trace == [Transaction([rows]), Replied(7)]
    ensures Answered(inst, 1)
  {
    assert inst.trace[..1] == [Transaction([rows])] && inst.trace[..1][..0] == [];
    assert [rows][..0] == [] && RowsMessages([rows]) == [Rows(rows)];
    assert Messages(inst.trace[..1]) == [] + RowsMessages([rows]);
    assert inst.trace[1].Replied?;
  }

  /** A flush is answered after a transaction that failed just as after one that succeeded. */
  lemma FlushIsAnsweredAfterAFailure(k: CacheKey, w: CachedValue)
    ensures
      var before, after := [Open, Store(0, 0, [Row(k, w)]), Send(0, 0)], [Take(0), Commit(0, false)] + [Take(0), Reply(0)];
      && FlushAnswered(map[], before, 0, 7, after)
      && k in Exec(Start(map[]), before).instances[0].stored
      && k !in Exec(Start(map[]), WithFlush(before, 0, 7, after)).disk
  {
    var rows := [Row(k, w)];
    var before, after := [Open, Store(0, 0, rows), Send(0, 0)], [Take(0), Commit(0, false)] + [Take(0), Reply(0)];
    var inst := NEW_INSTANCE.(stored := map[k := w], channel := [Rows(rows)], sent := [Rows(rows)]);
    var asked := inst.(channel := [Rows(rows), Flush(7)], sent := [Rows(rows), Flush(7)]);
    SendingOne(k, w);
    RunWithFlush(map[], before, after);
    Requested(inst);
    FailedAndAnswered(asked, rows);
    AnswersSecond(asked.(channel := [], trace := [Transaction([rows]), Replied(7)]), rows);
    hide Exec, Answered, Next;
    assert inst.channel + [Flush(7)] == [Rows(rows), Flush(7)] == inst.sent + [Flush(7)];
    assert Next(Alone(inst), RequestFlush(0, 7)) == Alone(asked);
  }
}

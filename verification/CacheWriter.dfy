/**
 The writer thread. In the protocol it takes messages one by one; here is the loop that does
 it, with the same log: transactions and flush answers, in the order they happen.
 */
module CacheWriter {
  import opened Wrappers
  import opened VerdictCache
  import opened CacheProtocol
  import opened CacheAnswers

  function RowsMessages(groups: seq<seq<Row>>): seq<Message> {
    if groups == [] then [] else RowsMessages(groups[..|groups| - 1]) + [Rows(groups[|groups| - 1])]
  }

  /** The messages a log accounts for, in order. */
  function Messages(trace: seq<Event>): seq<Message> {
    if trace == [] then []
    else
      Messages(trace[..|trace| - 1]) +
      match trace[|trace| - 1]
      case Transaction(groups) => RowsMessages(groups)
      case Replied(id) => [Flush(id)]
  }

  function FlushMessage(flush: Option<nat>): seq<Message> {
    if flush.Some? then [Flush(flush.value)] else []
  }

  lemma {:induction false} MessagesPrefix(trace: seq<Event>, n: nat)
    requires n <= |trace|
    ensures Messages(trace[..n]) <= Messages(trace)
  {
    if n < |trace| {
      MessagesPrefix(trace[..|trace| - 1], n);
      assert trace[..|trace| - 1][..n] == trace[..n];
    } else {
      assert trace[..n] == trace;
    }
  }

  // ---- in the protocol ----

  /** Every message sent is, in order, in the log, in the batch, the pending flush, or queued. */
  ghost predicate Accounted(inst: Instance) {
    inst.sent == Messages(inst.trace) + RowsMessages(inst.batch) + FlushMessage(inst.flush) + inst.channel
  }

  ghost predicate AllAccounted(s: State) {
    forall i :: i in s.instances ==> Accounted(s.instances[i])
  }

  /** One message taken is one more accounted for. */
  lemma TakenIsNext(batch: seq<seq<Row>>, message: Message, after: seq<seq<Row>>, flush: Option<nat>)
    requires if message.Rows? then after == batch + [message.rows] && flush == None
             else after == batch && flush == Some(message.id)
    ensures RowsMessages(after) + FlushMessage(flush) == RowsMessages(batch) + [message]
  {
    if message.Rows? {
      assert after[..|after| - 1] == batch;
    }
  }

  lemma TakeAccounts(inst: Instance, after: Instance)
    requires Accounted(inst) && inst.channel != [] && inst.flush.None?
    requires after == inst.(channel := inst.channel[1..], batch := after.batch, flush := after.flush)
    requires
      match inst.channel[0]
      case Rows(rows) => after.batch == inst.batch + [rows] && after.flush == inst.flush
      case Flush(id) => after.batch == inst.batch && after.flush == Some(id)
    ensures Accounted(after)
  {
    var logged, message := Messages(inst.trace), inst.channel[0];
    assert inst.channel == [message] + after.channel;
    TakenIsNext(inst.batch, message, after.batch, after.flush);
    assert logged + RowsMessages(inst.batch) + FlushMessage(inst.flush) == logged + RowsMessages(inst.batch);
    assert logged + RowsMessages(after.batch) + FlushMessage(after.flush)
        == logged + (RowsMessages(inst.batch) + [message]);
  }

  lemma CommitAccounts(inst: Instance)
    requires Accounted(inst) && inst.batch != []
    ensures Accounted(inst.(batch := [], trace := inst.trace + [Transaction(inst.batch)]))
  {
    assert (inst.trace + [Transaction(inst.batch)])[..|inst.trace|] == inst.trace;
  }

  lemma ReplyAccounts(inst: Instance)
    requires Accounted(inst) && inst.batch == [] && inst.flush.Some?
    ensures Accounted(inst.(flush := None, trace := inst.trace + [Replied(inst.flush.value)]))
  {
    assert (inst.trace + [Replied(inst.flush.value)])[..|inst.trace|] == inst.trace;
  }

  lemma QueueAccounts(inst: Instance, after: Instance, message: Message)
    requires Accounted(inst)
    requires after == inst.(calls := after.calls, channel := inst.channel + [message], sent := inst.sent + [message])
    ensures Accounted(after)
  {
  }

  /** Steps of callers touch nothing the account mentions. */
  lemma CallersDoNotTouchTheLog(s: State, step: Step, i: nat)
    requires Enabled(s, step) && i in s.instances && i in Apply(s, step).instances && i != s.nextId
    requires !step.Take? && !step.Commit? && !step.Reply? && !step.Send? && !step.RequestFlush?
    ensures
      var inst, after := s.instances[i], Apply(s, step).instances[i];
      && after.sent == inst.sent && after.trace == inst.trace && after.batch == inst.batch
      && after.flush == inst.flush && after.channel == inst.channel
  {
  }

  lemma AccountWriterStep(s: State, step: Step)
    requires AllAccounted(s) && Enabled(s, step)
    requires step.Take? || step.Commit? || step.Reply? || step.Send? || step.RequestFlush?
    ensures AllAccounted(Apply(s, step))
  {
    var i := step.i;
    var inst, after := s.instances[i], Apply(s, step).instances[i];
    assert Apply(s, step).instances == s.instances[i := after];
    match step
    case Take(_) => TakeAccounts(inst, after);
    case Commit(_, _) => CommitAccounts(inst);
    case Reply(_) => ReplyAccounts(inst);
    case Send(_, t) => QueueAccounts(inst, after, Rows(inst.calls[t].rows));
    case RequestFlush(_, id) => QueueAccounts(inst, after, Flush(id));
  }

  lemma AccountStep(s: State, step: Step)
    requires AllAccounted(s) && s.nextId !in s.instances
    ensures AllAccounted(Next(s, step))
  {
    if Enabled(s, step) {
      if step.Take? || step.Commit? || step.Reply? || step.Send? || step.RequestFlush? {
        AccountWriterStep(s, step);
      } else {
        var s' := Apply(s, step);
        forall i | i in s'.instances ensures Accounted(s'.instances[i]) {
          if i in s.instances {
            assert Accounted(s.instances[i]);
            CallersDoNotTouchTheLog(s, step, i);
          } else {
            assert step.Open? && s'.instances[i] == NEW_INSTANCE;
          }
        }
      }
    }
  }

  /** In every reachable state, whatever failed: nothing sent is split, lost, repeated or reordered. */
  lemma {:induction false} WriterKeepsOrder(disk: Table, steps: seq<Step>)
    ensures AllAccounted(Exec(Start(disk), steps))
  {
    if steps != [] {
      WriterKeepsOrder(disk, steps[..|steps| - 1]);
      AnswersHold(disk, steps[..|steps| - 1]);
      AccountStep(Exec(Start(disk), steps[..|steps| - 1]), steps[|steps| - 1]);
    }
  }

  /** Whenever a flush has been answered, exactly the messages sent before it are already
      accounted for: every group among them has been handed to a transaction. */
  lemma FlushCoversWhatWasSentBefore(disk: Table, steps: seq<Step>, i: nat, j: nat)
    requires i in Exec(Start(disk), steps).instances
    requires j < |Exec(Start(disk), steps).instances[i].trace|
    requires Exec(Start(disk), steps).instances[i].trace[j].Replied?
    ensures
      var inst := Exec(Start(disk), steps).instances[i];
      var n := |Messages(inst.trace[..j])|;
      && n < |inst.sent|
      && inst.sent[..n] == Messages(inst.trace[..j])
      && inst.sent[n] == Flush(inst.trace[j].id)
  {
    var inst := Exec(Start(disk), steps).instances[i];
    WriterKeepsOrder(disk, steps);
    MessagesPrefix(inst.trace, j + 1);
    assert inst.trace[..j + 1][..j] == inst.trace[..j];
    assert Messages(inst.trace[..j + 1]) == Messages(inst.trace[..j]) + [Flush(inst.trace[j].id)];
  }

  /** When the writer of a dropped cache returns, it leaves no backlog. */
  lemma ExitLeavesNoBacklog(disk: Table, steps: seq<Step>, i: nat)
    requires Enabled(Exec(Start(disk), steps), Exit(i))
    ensures
      var inst := Exec(Start(disk), steps).instances[i];
      inst.sent == Messages(inst.trace)
  {
    WriterKeepsOrder(disk, steps);
  }

  // ---- the loop ----

  /** A transaction takes a group only while it is below the cap, so it ends with the first
      group that reaches it. */
  ghost predicate CutAtCap(groups: seq<seq<Row>>) {
    groups != [] ==> RowCount(groups[..|groups| - 1]) < MAX_BATCH
  }

  /**
   One iteration's collecting: the message at `first`, then whatever is already waiting.
   `impatient` says when `try_recv` finds the channel empty although more is coming.
   */
  method Collect(sent: seq<Message>, first: nat, impatient: nat -> bool)
    returns (batch: seq<seq<Row>>, flush: Option<nat>, received: nat)
    requires first < |sent|
    ensures first < received <= |sent|
    ensures RowsMessages(batch) + FlushMessage(flush) == sent[first..received]
    ensures CutAtCap(batch)
  {
    batch, flush, received := [], None, first;
    var next := true;
    while next
      invariant first <= received <= |sent|
      invariant next ==> received < |sent| && flush.None? && RowCount(batch) < MAX_BATCH
      invariant !next ==> first < received
      invariant RowsMessages(batch) + FlushMessage(flush) == sent[first..received]
      invariant CutAtCap(batch)
      decreases |sent| - received, next
    {
      var message := sent[received];
      ghost var earlier := batch;
      assert sent[first..received + 1] == sent[first..received] + [message];
      assert RowsMessages(batch) + FlushMessage(flush) == RowsMessages(batch);
      received := received + 1;
      match message {
        case Rows(rows) =>
          batch := batch + [rows];
          assert batch[..|batch| - 1] == earlier;
        case Flush(id) =>
          flush := Some(id);
      }
      TakenIsNext(earlier, message, batch, flush);
      next := flush.None? && RowCount(batch) < MAX_BATCH && received < |sent| && !impatient(received);
    }
  }

  lemma LogGrows(trace: seq<Event>, event: Event)
    ensures Messages(trace + [event]) == Messages(trace) +
      match event
      case Transaction(groups) => RowsMessages(groups)
      case Replied(id) => [Flush(id)]
  {
    assert (trace + [event])[..|trace|] == trace;
  }

  /** Every transaction has groups, and ends with the first that reaches the cap. */
  ghost predicate WellCut(trace: seq<Event>) {
    forall j :: 0 <= j < |trace| && trace[j].Transaction? ==> trace[j].groups != [] && CutAtCap(trace[j].groups)
  }

  /** The log after one round: the transaction, if it has groups, then the flush it ended with. */
  function Logged(trace: seq<Event>, batch: seq<seq<Row>>, flush: Option<nat>): seq<Event> {
    var written := if batch != [] then trace + [Transaction(batch)] else trace;
    if flush.Some? then written + [Replied(flush.value)] else written
  }

  lemma RoundIsLogged(trace: seq<Event>, batch: seq<seq<Row>>, flush: Option<nat>)
    requires WellCut(trace) && CutAtCap(batch)
    ensures WellCut(Logged(trace, batch, flush))
    ensures Messages(Logged(trace, batch, flush)) == Messages(trace) + (RowsMessages(batch) + FlushMessage(flush))
  {
    hide Messages, CutAtCap;
    var logged, rows, tail := Messages(trace), RowsMessages(batch), FlushMessage(flush);
    var written := if batch != [] then trace + [Transaction(batch)] else trace;
    assert Messages(written) == logged + rows by {
      LogGrows(trace, Transaction(batch));
    }
    assert Messages(Logged(trace, batch, flush)) == Messages(written) + tail by {
      if flush.Some? {
        LogGrows(written, Replied(flush.value));
      }
    }
    hide RowsMessages, FlushMessage, Logged, WellCut;
    assert (logged + rows) + tail == logged + (rows + tail);
  }

  /**
   The writer's loop over everything sent until the channel closes: hand each batch to a
   transaction, then answer the flush that ended it. A store sends no empty group, so a batch
   without groups is one without rows.
   */
  method WriteLoop(sent: seq<Message>, impatient: nat -> bool) returns (trace: seq<Event>)
    ensures Messages(trace) == sent && WellCut(trace)
  {
    trace := [];
    var received := 0;
    assert Messages(trace) == sent[..received] && WellCut(trace);
    hide Messages, RowsMessages, CutAtCap, WellCut;
    while received < |sent|
      invariant 0 <= received <= |sent|
      invariant Messages(trace) == sent[..received] && WellCut(trace)
    {
      ghost var before, earlier := received, trace;
      var batch, flush;
      batch, flush, received := Collect(sent, received, impatient);
      if batch != [] {
        trace := trace + [Transaction(batch)];
      }
      if flush.Some? {
        trace := trace + [Replied(flush.value)];
      }
      RoundIsLogged(earlier, batch, flush);
      assert sent[..received] == sent[..before] + sent[before..received];
    }
    assert sent[..received] == sent;
  }
}

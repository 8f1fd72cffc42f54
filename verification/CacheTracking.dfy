/**
 One key followed through one instance: from the call that stored it, through the channel and
 the writer, to the transaction that wrote or lost it.
 */
module CacheTracking {
  import opened Wrappers
  import opened VerdictCache
  import opened CacheProtocol
  import opened CacheAtomicity
  import opened CacheAnswers
  import opened CacheWriter

  predicate Carries(message: Message, k: CacheKey) {
    message.Rows? && k in Group(message.rows)
  }

  ghost predicate Among(messages: seq<Message>, k: CacheKey) {
    exists p :: 0 <= p < |messages| && Carries(messages[p], k)
  }

  ghost predicate CallCarries(inst: Instance, t: nat, k: CacheKey) {
    t in inst.calls && inst.calls[t].Sending? && k in Group(inst.calls[t].rows)
  }

  /** Stored, but the store has not sent it yet. */
  ghost predicate BeingSent(inst: Instance, k: CacheKey) {
    exists t :: CallCarries(inst, t, k)
  }

  /** What the writer has received or will: its batch, a pending flush, the channel. */
  function Backlog(inst: Instance): seq<Message> {
    RowsMessages(inst.batch) + FlushMessage(inst.flush) + inst.channel
  }

  ghost predicate Underway(inst: Instance, k: CacheKey) {
    BeingSent(inst, k) || Among(Backlog(inst), k)
  }

  // ---- history of a run ----

  /** This step hands `k` to a transaction of instance `i`. */
  ghost predicate Commits(s: State, step: Step, i: nat, succeeds: bool, k: CacheKey) {
    step == Commit(i, succeeds) && Enabled(s, step) && k in Group(Flatten(s.instances[i].batch))
  }

  /** Somewhere in the run, instance `i` handed `k` to a transaction that ended this way. */
  ghost predicate Handed(disk: Table, steps: seq<Step>, i: nat, succeeds: bool, k: CacheKey) {
    steps != [] &&
      var earlier := steps[..|steps| - 1];
      Handed(disk, earlier, i, succeeds, k) || Commits(Exec(Start(disk), earlier), steps[|steps| - 1], i, succeeds, k)
  }

  ghost predicate Wrote(disk: Table, steps: seq<Step>, i: nat, k: CacheKey) {
    Handed(disk, steps, i, true, k)
  }

  ghost predicate Lost(disk: Table, steps: seq<Step>, i: nat, k: CacheKey) {
    Handed(disk, steps, i, false, k)
  }

  /** The file had it before anyone opened it, or some other instance put it there. */
  ghost predicate FromElsewhere(disk: Table, steps: seq<Step>, i: nat, k: CacheKey) {
    k in disk || exists j :: j != i && Wrote(disk, steps, j, k)
  }

  ghost predicate Untampered(steps: seq<Step>) {
    forall step :: step in steps ==> !step.Tamper?
  }

  // ---- one key, followed through one instance ----

  /** An instance sends a key at most once, and only what it stored. */
  ghost predicate Once(inst: Instance, k: CacheKey) {
    && (forall p, q :: 0 <= p < q < |inst.sent| && Carries(inst.sent[p], k) ==> !Carries(inst.sent[q], k))
    && (forall t :: CallCarries(inst, t, k) ==> !Among(inst.sent, k))
    && (forall t, u :: CallCarries(inst, t, k) && CallCarries(inst, u, k) ==> t == u)
    && (Among(inst.sent, k) || BeingSent(inst, k) ==> k in inst.stored)
  }

  ghost predicate LoadsFrom(inst: Instance, disk: Table) {
    forall t :: t in inst.calls && inst.calls[t].Loaded? ==> inst.calls[t].found in disk
  }

  /** `written` and `lost` say whether a transaction with `k` has succeeded and failed. */
  ghost predicate Tracked(inst: Instance, disk: Table, k: CacheKey, written: bool, lost: bool) {
    && Accounted(inst) && Once(inst, k) && LoadsFrom(inst, disk)
    && (Among(Messages(inst.trace), k) <==> written || lost)
    && !(written && lost)
    && (written ==> k in disk)
    && (k in inst.stored ==> k in disk || lost || Underway(inst, k))
  }

  lemma AmongAppends(a: seq<Message>, b: seq<Message>, k: CacheKey)
    ensures Among(a + b, k) <==> Among(a, k) || Among(b, k)
  {
    if p :| 0 <= p < |a| && Carries(a[p], k) {
      assert (a + b)[p] == a[p];
    }
    if p :| 0 <= p < |b| && Carries(b[p], k) {
      assert (a + b)[|a| + p] == b[p];
    }
  }

  lemma AmongOne(message: Message, k: CacheKey)
    ensures Among([message], k) <==> Carries(message, k)
  {
    assert [message][0] == message;
  }

  /** A transaction writes a key exactly if one of its groups carries it. */
  lemma {:induction false} BatchCarries(groups: seq<seq<Row>>, k: CacheKey)
    ensures k in Group(Flatten(groups)) <==> Among(RowsMessages(groups), k)
  {
    if groups != [] {
      var earlier, last := groups[..|groups| - 1], groups[|groups| - 1];
      BatchCarries(earlier, k);
      GroupAppends(Flatten(earlier), last);
      AmongAppends(RowsMessages(earlier), [Rows(last)], k);
      AmongOne(Rows(last), k);
    }
  }

  /** In one list of messages that carry a key once, what comes first does not come later. */
  lemma CarriedOnce(first: seq<Message>, rest: seq<Message>, k: CacheKey)
    requires
      var all := first + rest;
      forall p, q :: 0 <= p < q < |all| && Carries(all[p], k) ==> !Carries(all[q], k)
    requires Among(first, k)
    ensures !Among(rest, k)
  {
    hide Carries;
    var all := first + rest;
    var p :| 0 <= p < |first| && Carries(first[p], k);
    assert all[p] == first[p];
    forall q | 0 <= q < |rest| ensures !Carries(rest[q], k) {
      assert all[|first| + q] == rest[q];
    }
  }

  /** What is logged is not in the backlog, nor being sent: a key is sent once. */
  lemma LoggedIsNotUnderway(inst: Instance, k: CacheKey)
    requires Accounted(inst) && Once(inst, k) && Among(Messages(inst.trace), k)
    ensures !Underway(inst, k)
  {
    hide Carries, CallCarries;
    var logged, backlog := Messages(inst.trace), Backlog(inst);
    assert inst.sent == logged + backlog;
    AmongAppends(logged, backlog, k);
    CarriedOnce(logged, backlog, k);
  }

  // ---- every step keeps track ----

  lemma OnceAdded(inst: Instance, after: Instance, k: CacheKey, t: nat, rows: seq<Row>)
    requires Once(inst, k) && t !in inst.calls && (k in Group(rows) ==> k !in inst.stored)
    requires after == inst.(stored := inst.stored + Group(rows), calls := inst.calls[t := Sending(rows)])
    ensures Once(after, k)
    ensures BeingSent(inst, k) ==> BeingSent(after, k)
    ensures k in Group(rows) ==> BeingSent(after, k)
  {
    hide Group, Carries;
    forall u ensures CallCarries(after, u, k) <==> CallCarries(inst, u, k) || (u == t && k in Group(rows)) {
    }
    if k in Group(rows) {
      assert CallCarries(after, t, k);
      assert forall u :: !CallCarries(inst, u, k);
    } else if u :| CallCarries(inst, u, k) {
      assert CallCarries(after, u, k);
    }
  }

  lemma TrackAdd(inst: Instance, after: Instance, disk: Table, k: CacheKey, written: bool, lost: bool, t: nat, rows: seq<Row>)
    requires Tracked(inst, disk, k, written, lost) && t !in inst.calls && (k in Group(rows) ==> k !in inst.stored)
    requires after == inst.(stored := inst.stored + Group(rows), calls := inst.calls[t := Sending(rows)])
    ensures Tracked(after, disk, k, written, lost)
  {
    hide Group, Once, BeingSent, Among;
    OnceAdded(inst, after, k, t, rows);
  }

  lemma NothingNew(inst: Instance, entries: seq<Row>)
    requires FreshRows(inst.stored, entries) == []
    ensures FirstWins(inst.stored, entries) == inst.stored
  {
    StoreAddsFreshRows(inst.stored, entries);
    assert Group([]) == map[];
  }

  lemma TrackStore(inst: Instance, after: Instance, disk: Table, k: CacheKey, written: bool, lost: bool, t: nat, entries: seq<Row>)
    requires Tracked(inst, disk, k, written, lost) && t !in inst.calls
    requires
      var rows := FreshRows(inst.stored, entries);
      after == inst.(stored := FirstWins(inst.stored, entries),
                     calls := if rows == [] then inst.calls else inst.calls[t := Sending(rows)])
    ensures Tracked(after, disk, k, written, lost)
  {
    hide Tracked, FirstWins, FreshRows, Group;
    var rows := FreshRows(inst.stored, entries);
    if rows == [] {
      NothingNew(inst, entries);
      assert after == inst;
    } else {
      StoreAddsFreshRows(inst.stored, entries);
      TrackAdd(inst, after, disk, k, written, lost, t, rows);
    }
  }

  lemma OnceSent(inst: Instance, after: Instance, k: CacheKey, t: nat)
    requires Once(inst, k) && t in inst.calls && inst.calls[t].Sending?
    requires after.stored == inst.stored && after.calls == inst.calls - {t} && after.sent == inst.sent + [Rows(inst.calls[t].rows)]
    requires Among(after.sent, k) <==> Among(inst.sent, k) || Carries(Rows(inst.calls[t].rows), k)
    ensures Once(after, k)
    ensures BeingSent(inst, k) ==> BeingSent(after, k) || Carries(Rows(inst.calls[t].rows), k)
  {
    hide Group;
    forall u ensures CallCarries(after, u, k) <==> u != t && CallCarries(inst, u, k) {
    }
    assert CallCarries(inst, t, k) <==> Carries(Rows(inst.calls[t].rows), k);
    if p :| 0 <= p < |inst.sent| && Carries(inst.sent[p], k) {
      assert Among(inst.sent, k);
    }
    if u :| CallCarries(inst, u, k) && u != t {
      assert CallCarries(after, u, k);
    }
  }

  lemma QueueCarries(inst: Instance, after: Instance, message: Message, k: CacheKey)
    requires after.batch == inst.batch && after.flush == inst.flush
    requires after.channel == inst.channel + [message] && after.sent == inst.sent + [message]
    ensures Among(after.sent, k) <==> Among(inst.sent, k) || Carries(message, k)
    ensures Among(Backlog(after), k) <==> Among(Backlog(inst), k) || Carries(message, k)
  {
    AmongOne(message, k);
    AmongAppends(inst.sent, [message], k);
    AmongAppends(Backlog(inst), [message], k);
    assert Backlog(after) == Backlog(inst) + [message];
  }

  lemma TrackSend(inst: Instance, after: Instance, disk: Table, k: CacheKey, written: bool, lost: bool, t: nat)
    requires Tracked(inst, disk, k, written, lost) && t in inst.calls && inst.calls[t].Sending?
    requires
      var message := Rows(inst.calls[t].rows);
      after == inst.(calls := inst.calls - {t}, channel := inst.channel + [message], sent := inst.sent + [message])
    ensures Tracked(after, disk, k, written, lost)
  {
    hide Once, BeingSent, Among, Carries, Accounted, Backlog;
    var message := Rows(inst.calls[t].rows);
    QueueAccounts(inst, after, message);
    QueueCarries(inst, after, message, k);
    OnceSent(inst, after, k, t);
  }

  /** Whether a key was sent once depends on no more than this. */
  lemma SameOnce(inst: Instance, after: Instance, k: CacheKey)
    requires Once(inst, k) && after.sent == inst.sent
    requires forall u :: CallCarries(after, u, k) <==> CallCarries(inst, u, k)
    requires k in inst.stored ==> k in after.stored
    ensures Once(after, k) && (BeingSent(inst, k) <==> BeingSent(after, k))
  {
    hide CallCarries, Carries;
    if u :| CallCarries(inst, u, k) {
      assert CallCarries(after, u, k);
    }
  }

  lemma OnceFlushed(inst: Instance, after: Instance, k: CacheKey, id: nat)
    requires Once(inst, k)
    requires after.stored == inst.stored && after.calls == inst.calls && after.sent == inst.sent + [Flush(id)]
    requires Among(after.sent, k) <==> Among(inst.sent, k)
    ensures Once(after, k) && (BeingSent(inst, k) <==> BeingSent(after, k))
  {
    hide Group, Among;
    forall u ensures CallCarries(after, u, k) <==> CallCarries(inst, u, k) {
    }
    if u :| CallCarries(inst, u, k) {
      assert CallCarries(after, u, k);
    }
  }

  lemma TrackFlush(inst: Instance, after: Instance, disk: Table, k: CacheKey, written: bool, lost: bool, id: nat)
    requires Tracked(inst, disk, k, written, lost)
    requires after == inst.(channel := inst.channel + [Flush(id)], sent := inst.sent + [Flush(id)])
    ensures Tracked(after, disk, k, written, lost)
  {
    hide Once, BeingSent, Among, Accounted, Backlog;
    QueueAccounts(inst, after, Flush(id));
    QueueCarries(inst, after, Flush(id), k);
    OnceFlushed(inst, after, k, id);
  }

  lemma TakeKeepsBacklog(inst: Instance, after: Instance)
    requires inst.channel != [] && inst.flush.None? && after.channel == inst.channel[1..]
    requires
      match inst.channel[0]
      case Rows(rows) => after.batch == inst.batch + [rows] && after.flush == inst.flush
      case Flush(id) => after.batch == inst.batch && after.flush == Some(id)
    ensures Backlog(after) == Backlog(inst)
  {
    var message := inst.channel[0];
    TakenIsNext(inst.batch, message, after.batch, after.flush);
    calc {
      Backlog(inst);
      RowsMessages(inst.batch) + inst.channel;
      { assert inst.channel == [message] + after.channel; }
      RowsMessages(inst.batch) + [message] + after.channel;
    }
  }

  lemma TrackTake(inst: Instance, after: Instance, disk: Table, k: CacheKey, written: bool, lost: bool)
    requires Tracked(inst, disk, k, written, lost) && inst.channel != [] && inst.flush.None?
    requires after == inst.(channel := inst.channel[1..], batch := after.batch, flush := after.flush)
    requires
      match inst.channel[0]
      case Rows(rows) => after.batch == inst.batch + [rows] && after.flush == inst.flush
      case Flush(id) => after.batch == inst.batch && after.flush == Some(id)
    ensures Tracked(after, disk, k, written, lost)
  {
    hide Once, BeingSent, Among, Accounted, Backlog;
    TakeAccounts(inst, after);
    TakeKeepsBacklog(inst, after);
    SameOnce(inst, after, k);
  }

  lemma TrackReply(inst: Instance, disk: Table, k: CacheKey, written: bool, lost: bool)
    requires Tracked(inst, disk, k, written, lost) && inst.batch == [] && inst.flush.Some?
    ensures Tracked(inst.(flush := None, trace := inst.trace + [Replied(inst.flush.value)]), disk, k, written, lost)
  {
    hide Once, BeingSent, Among;
    var after := inst.(flush := None, trace := inst.trace + [Replied(inst.flush.value)]);
    var message := Flush(inst.flush.value);
    ReplyAccounts(inst);
    assert after.trace[..|inst.trace|] == inst.trace;
    AmongOne(message, k);
    AmongAppends(Messages(inst.trace), [message], k);
    AmongAppends([message], inst.channel, k);
    assert Backlog(inst) == [message] + inst.channel && Backlog(after) == inst.channel;
    SameOnce(inst, after, k);
  }

  lemma TrackCommit(inst: Instance, disk: Table, k: CacheKey, written: bool, lost: bool, succeeds: bool)
    requires Tracked(inst, disk, k, written, lost) && inst.batch != []
    ensures
      var handed := k in Group(Flatten(inst.batch));
      Tracked(inst.(batch := [], trace := inst.trace + [Transaction(inst.batch)]),
              if succeeds then FirstWins(disk, Flatten(inst.batch)) else disk, k,
              written || (handed && succeeds), lost || (handed && !succeeds))
  {
    var after := inst.(batch := [], trace := inst.trace + [Transaction(inst.batch)]);
    var messages, rest := RowsMessages(inst.batch), FlushMessage(inst.flush) + inst.channel;
    CommitAccounts(inst);
    assert after.trace[..|inst.trace|] == inst.trace;
    assert Backlog(inst) == messages + rest && Backlog(after) == rest;
    BatchCarries(inst.batch, k);
    FirstWinsIsUnion(disk, Flatten(inst.batch));
    hide Once, BeingSent, Among, FirstWins, Flatten;
    AmongAppends(Messages(inst.trace), messages, k);
    AmongAppends(messages, rest, k);
    if written || lost {
      LoggedIsNotUnderway(inst, k);
    }
    SameOnce(inst, after, k);
  }

  /** Calls that read, and the end of the channel: nothing about sending changes. */
  lemma TrackCalls(inst: Instance, after: Instance, disk: Table, k: CacheKey, written: bool, lost: bool)
    requires Tracked(inst, disk, k, written, lost)
    requires after == inst.(stored := after.stored, calls := after.calls, open := after.open, missed := after.missed)
    requires forall u :: CallCarries(after, u, k) <==> CallCarries(inst, u, k)
    requires LoadsFrom(after, disk) && (k in inst.stored ==> k in after.stored)
    requires k in after.stored && k !in inst.stored ==> k in disk
    ensures Tracked(after, disk, k, written, lost)
  {
    assert Accounted(after) && Backlog(after) == Backlog(inst);
    hide Once, BeingSent, Among, Accounted, Backlog;
    SameOnce(inst, after, k);
  }

  lemma TrackReads(s: State, step: Step, k: CacheKey, written: bool, lost: bool)
    requires step.Miss? || step.Read? || step.Keep? || step.Close?
    requires Enabled(s, step) && Tracked(s.instances[step.i], s.disk, k, written, lost)
    ensures Tracked(Apply(s, step).instances[step.i], s.disk, k, written, lost)
  {
    hide Once, Among, Accounted, Underway, Group;
    var inst, after := s.instances[step.i], Apply(s, step).instances[step.i];
    TrackCalls(inst, after, s.disk, k, written, lost);
  }

  lemma TrackOwnStep(s: State, step: Step, k: CacheKey, written: bool, lost: bool)
    requires !step.Open? && !step.Tamper? && !step.Exit? && !step.Crash? && !step.Hit?
    requires Enabled(s, step) && Tracked(s.instances[step.i], s.disk, k, written, lost)
    ensures Tracked(Apply(s, step).instances[step.i], Apply(s, step).disk, k,
                    written || Commits(s, step, step.i, true, k), lost || Commits(s, step, step.i, false, k))
  {
    hide Tracked, FirstWins, Flatten, FreshRows, Group;
    var inst, after := s.instances[step.i], Apply(s, step).instances[step.i];
    match step
    case Store(_, t, entries) => TrackStore(inst, after, s.disk, k, written, lost, t, entries);
    case Send(_, t) => TrackSend(inst, after, s.disk, k, written, lost, t);
    case RequestFlush(_, id) => TrackFlush(inst, after, s.disk, k, written, lost, id);
    case Take(_) => TrackTake(inst, after, s.disk, k, written, lost);
    case Commit(_, succeeds) => TrackCommit(inst, s.disk, k, written, lost, succeeds);
    case Reply(_) => TrackReply(inst, s.disk, k, written, lost);
    case _ => TrackReads(s, step, k, written, lost);
  }

  lemma OthersKeepOut(s: State, step: Step, i: nat)
    requires !step.Tamper? && Enabled(s, step) && i in s.instances && i in Apply(s, step).instances && i != s.nextId
    requires step.Open? || step.Hit? || step.i != i
    ensures Apply(s, step).instances[i] == s.instances[i] && Within(s.disk, Apply(s, step).disk)
  {
  }

  lemma DiskOnlyGrows(inst: Instance, disk: Table, after: Table, k: CacheKey, written: bool, lost: bool)
    requires Tracked(inst, disk, k, written, lost) && Within(disk, after)
    ensures Tracked(inst, after, k, written, lost)
  {
    hide Once, Accounted, Underway, Among;
  }

  lemma TrackStep(s: State, step: Step, i: nat, k: CacheKey, written: bool, lost: bool)
    requires !step.Tamper? && Enabled(s, step) && i in s.instances && i in Apply(s, step).instances && i != s.nextId
    requires Tracked(s.instances[i], s.disk, k, written, lost)
    ensures Tracked(Apply(s, step).instances[i], Apply(s, step).disk, k,
                    written || Commits(s, step, i, true, k), lost || Commits(s, step, i, false, k))
  {
    assert (step.Exit? || step.Crash?) ==> step.i != i;
    hide Tracked, Apply;
    if step.Open? || step.Hit? || step.i != i {
      OthersKeepOut(s, step, i);
      assert !Commits(s, step, i, true, k) && !Commits(s, step, i, false, k);
      DiskOnlyGrows(s.instances[i], s.disk, Apply(s, step).disk, k, written, lost);
    } else {
      TrackOwnStep(s, step, k, written, lost);
    }
  }
}

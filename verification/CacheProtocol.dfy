/**
 The durable verdict cache as a protocol: any number of instances on one file, each
 with its map, its callers between their lock sections, its channel and its writer.
 A run is any sequence of steps; a step that is not enabled changes nothing.
 */
module CacheProtocol {
  import opened Wrappers
  import opened VerdictCache

  /** Most rows the writer puts in one transaction before it stops collecting. */
  const MAX_BATCH: nat := 1024

  /** A thread inside a cache call, between two of its atomic sections. */
  datatype Call =
    | Reading(key: CacheKey)                        // get: the map had no verdict
    | Loaded(found: CacheKey, verdict: CachedValue) // get: the file had one
    | Sending(rows: seq<Row>)                       // store: in the map, not yet in the channel

  datatype Message = Rows(rows: seq<Row>) | Flush(id: nat)

  /** What the writer has done: handed groups to one transaction, or answered a flush. */
  datatype Event = Transaction(groups: seq<seq<Row>>) | Replied(id: nat)

  /** `sent`, `trace` and `missed` are history: nothing reads them to decide a step. */
  datatype Instance = Instance(
    stored: Table,
    calls: map<nat, Call>,
    open: bool,
    channel: seq<Message>,
    batch: seq<seq<Row>>,
    flush: Option<nat>,
    sent: seq<Message>,
    trace: seq<Event>,
    missed: set<CacheKey>)

  datatype Answer = Answer(instance: nat, key: CacheKey, verdict: CachedValue)

  /** `puts` (what every store call offered) and `answers` are history. */
  datatype State = State(
    disk: Table,
    instances: map<nat, Instance>,
    nextId: nat,
    puts: set<Table>,
    answers: set<Answer>)

  datatype Step =
    | Open
    | Hit(i: nat, key: CacheKey)                    // get, first section: found in the map
    | Miss(i: nat, t: nat, key: CacheKey)           // get, first section: not found
    | Read(i: nat, t: nat, readable: bool)          // get: the point lookup in the file
    | Keep(i: nat, t: nat)                          // get, second section
    | Store(i: nat, t: nat, entries: seq<Row>)      // store: the locked section
    | Send(i: nat, t: nat)                          // store: the send after it
    | RequestFlush(i: nat, id: nat)
    | Take(i: nat)                                  // writer: one message into the batch
    | Commit(i: nat, succeeds: bool)                // writer: the transaction
    | Reply(i: nat)                                 // writer: answer the flush
    | Close(i: nat)                                 // drop: the channel closes
    | Exit(i: nat)                                  // drop: the writer has returned
    | Crash(i: nat)
    | Tamper(contents: Table)                       // anything at all happens to the file

  const NEW_INSTANCE := Instance(map[], map[], true, [], [], None, [], [], {})

  function RowCount(groups: seq<seq<Row>>): nat {
    |Flatten(groups)|
  }

  predicate Enabled(s: State, step: Step) {
    match step
    case Open => true
    case Tamper(_) => true
    case Hit(i, k) => i in s.instances && s.instances[i].open && k in s.instances[i].stored
    case Miss(i, t, k) =>
      i in s.instances && s.instances[i].open && t !in s.instances[i].calls && k !in s.instances[i].stored
    case Read(i, t, _) => i in s.instances && t in s.instances[i].calls && s.instances[i].calls[t].Reading?
    case Keep(i, t) => i in s.instances && t in s.instances[i].calls && s.instances[i].calls[t].Loaded?
    case Store(i, t, _) => i in s.instances && s.instances[i].open && t !in s.instances[i].calls
    case Send(i, t) => i in s.instances && t in s.instances[i].calls && s.instances[i].calls[t].Sending?
    case RequestFlush(i, _) => i in s.instances && s.instances[i].open
    case Take(i) =>
      && i in s.instances && s.instances[i].channel != []
      && s.instances[i].flush.None? && RowCount(s.instances[i].batch) < MAX_BATCH
    // The writer may find the channel empty at any moment and stop collecting.
    case Commit(i, _) => i in s.instances && s.instances[i].batch != []
    case Reply(i) => i in s.instances && s.instances[i].batch == [] && s.instances[i].flush.Some?
    // Dropping needs the cache to itself, so no call is in progress.
    case Close(i) => i in s.instances && s.instances[i].open && s.instances[i].calls == map[]
    case Exit(i) =>
      && i in s.instances && !s.instances[i].open
      && s.instances[i].channel == [] && s.instances[i].batch == [] && s.instances[i].flush.None?
    case Crash(i) => i in s.instances
  }

  function With(s: State, i: nat, inst: Instance): State {
    s.(instances := s.instances[i := inst])
  }

  function Apply(s: State, step: Step): State
    requires Enabled(s, step)
  {
    match step
    case Open => s.(instances := s.instances[s.nextId := NEW_INSTANCE], nextId := s.nextId + 1)
    case Tamper(contents) => s.(disk := contents)
    case Hit(i, k) => s.(answers := s.answers + {Answer(i, k, s.instances[i].stored[k])})
    case Miss(i, t, k) =>
      var inst := s.instances[i];
      With(s, i, inst.(calls := inst.calls[t := Reading(k)]))
    case Read(i, t, readable) =>
      var inst := s.instances[i];
      var k := inst.calls[t].key;
      if readable && k in s.disk then
        With(s, i, inst.(calls := inst.calls[t := Loaded(k, s.disk[k])]))
      else
        With(s, i, inst.(calls := inst.calls - {t}, missed := inst.missed + {k}))
    case Keep(i, t) =>
      var inst := s.instances[i];
      var Loaded(k, v) := inst.calls[t];
      var stored := if k in inst.stored then inst.stored else inst.stored[k := v];
      With(s, i, inst.(stored := stored, calls := inst.calls - {t}))
        .(answers := s.answers + {Answer(i, k, stored[k])})
    case Store(i, t, entries) =>
      var inst := s.instances[i];
      var rows := FreshRows(inst.stored, entries);
      With(s, i, inst.(stored := FirstWins(inst.stored, entries),
                       calls := if rows == [] then inst.calls else inst.calls[t := Sending(rows)]))
        .(puts := s.puts + {Group(entries)})
    case Send(i, t) =>
      var inst := s.instances[i];
      var message := Rows(inst.calls[t].rows);
      With(s, i, inst.(calls := inst.calls - {t}, channel := inst.channel + [message], sent := inst.sent + [message]))
    case RequestFlush(i, id) =>
      var inst := s.instances[i];
      With(s, i, inst.(channel := inst.channel + [Flush(id)], sent := inst.sent + [Flush(id)]))
    case Take(i) =>
      var inst := s.instances[i];
      var rest := inst.(channel := inst.channel[1..]);
      With(s, i, match inst.channel[0]
                 case Rows(rows) => rest.(batch := inst.batch + [rows])
                 case Flush(id) => rest.(flush := Some(id)))
    case Commit(i, succeeds) =>
      var inst := s.instances[i];
      With(s, i, inst.(batch := [], trace := inst.trace + [Transaction(inst.batch)]))
        .(disk := if succeeds then FirstWins(s.disk, Flatten(inst.batch)) else s.disk)
    case Reply(i) =>
      var inst := s.instances[i];
      With(s, i, inst.(flush := None, trace := inst.trace + [Replied(inst.flush.value)]))
    case Close(i) => With(s, i, s.instances[i].(open := false))
    case Exit(i) => s.(instances := s.instances - {i})
    case Crash(i) => s.(instances := s.instances - {i})
  }

  function Next(s: State, step: Step): State {
    if Enabled(s, step) then Apply(s, step) else s
  }

  function Exec(s: State, steps: seq<Step>): State {
    if steps == [] then s else Next(Exec(s, steps[..|steps| - 1]), steps[|steps| - 1])
  }

  lemma {:induction false} ExecAppends(s: State, a: seq<Step>, b: seq<Step>)
    ensures Exec(s, a + b) == Exec(Exec(s, a), b)
  {
    if b == [] {
      assert a + b == a;
    } else {
      assert (a + b)[..|a + b| - 1] == a + b[..|b| - 1];
      ExecAppends(s, a, b[..|b| - 1]);
    }
  }

  /** A file nobody has opened yet, holding `disk`. */
  function Start(disk: Table): State {
    State(disk, map[], 0, {}, {})
  }
}

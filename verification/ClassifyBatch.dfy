/**
 What a classify node puts in its columns: one batch of rows against all its conditions, with
 the verdict cache in front of the model and one request per row for whatever is missing.
 */
module ClassifyBatch {
  import opened Wrappers

  /** A row's guard (`None` is NULL) and text (`None` is NULL). */
  datatype Row = Row(guard: Option<bool>, text: Option<string>)

  /** Provenance of a verdict: which prompt asked for it. */
  datatype Key = Key(condition: string, text: string, fused: bool)

  type Cache = map<Key, bool>

  datatype Request = Request(text: string, conditions: seq<string>)

  datatype PendingRow = PendingRow(row: nat, text: string, pending: seq<nat>)

  /** The model, one outcome per request, and how its answers are read: the answer to a request
      of so many conditions, at one of them. */
  datatype Model = Model(complete: seq<Request> -> seq<Option<string>>, decode: (string, nat, nat) -> Option<bool>) {
    ghost predicate Answers() {
      forall requests {:trigger complete(requests)} :: |complete(requests)| == |requests|
    }
  }

  predicate GuardAllows(hasGuard: bool, row: Row) {
    hasGuard ==> row.guard == Some(true)
  }

  predicate Asks(hasGuard: bool, row: Row) {
    GuardAllows(hasGuard, row) && row.text.Some?
  }

  function KeyFor(condition: string, text: string, asked: nat): Key {
    Key(condition, text, asked != 1)
  }

  /** Looked up under this node's own prompt, then under the single-condition one. */
  function Cached(cache: Cache, condition: string, text: string, asked: nat): Option<bool> {
    if KeyFor(condition, text, asked) in cache then Some(cache[KeyFor(condition, text, asked)])
    else if Key(condition, text, false) in cache then Some(cache[Key(condition, text, false)])
    else None
  }

  /** The conditions still lacking a verdict, in order. */
  function Pending(cache: Cache, conditions: seq<string>, text: string, upTo: nat): seq<nat>
    requires upTo <= |conditions|
  {
    if upTo == 0 then []
    else
      Pending(cache, conditions, text, upTo - 1)
      + if Cached(cache, conditions[upTo - 1], text, |conditions|).None? then [upTo - 1] else []
  }

  /** Ascending, and exactly the conditions the cache has nothing on. */
  lemma {:induction false} PendingIsRight(cache: Cache, conditions: seq<string>, text: string, upTo: nat)
    requires upTo <= |conditions|
    ensures
      var p := Pending(cache, conditions, text, upTo);
      && (forall i :: 0 <= i < |p| ==> p[i] < upTo)
      && (forall i, j :: 0 <= i < j < |p| ==> p[i] < p[j])
      && (forall b :: 0 <= b < upTo ==> (b in p <==> Cached(cache, conditions[b], text, |conditions|).None?))
  {
    if upTo > 0 {
      PendingIsRight(cache, conditions, text, upTo - 1);
    }
  }

  function LookedUp(cache: Cache, conditions: seq<string>, text: string): (v: seq<Option<bool>>)
    ensures |v| == |conditions|
  {
    seq(|conditions|, b requires 0 <= b < |conditions| => Cached(cache, conditions[b], text, |conditions|))
  }

  function AllFalse(n: nat): (v: seq<Option<bool>>)
    ensures |v| == n
  {
    seq(n, _ => Some(false))
  }

  /** What a row holds before the model is asked. */
  function Known(cache: Cache, conditions: seq<string>, hasGuard: bool, row: Row): (v: seq<Option<bool>>)
    ensures |v| == |conditions|
  {
    if Asks(hasGuard, row) then LookedUp(cache, conditions, row.text.value) else AllFalse(|conditions|)
  }

  predicate InRangeRow(conditions: seq<string>, p: PendingRow) {
    forall i :: 0 <= i < |p.pending| ==> p.pending[i] < |conditions|
  }

  /** `p` is the call its row needs. */
  ghost predicate IsPending(cache: Cache, conditions: seq<string>, hasGuard: bool, rows: seq<Row>, p: PendingRow) {
    && p.row < |rows| && Asks(hasGuard, rows[p.row]) && p.text == rows[p.row].text.value
    && p.pending == Pending(cache, conditions, p.text, |conditions|) && p.pending != []
    && InRangeRow(conditions, p)
  }

  /** The rows that need a call, in order. */
  function PendingRows(cache: Cache, conditions: seq<string>, hasGuard: bool, rows: seq<Row>): seq<PendingRow> {
    if rows == [] then []
    else
      var n := |rows| - 1;
      var earlier := PendingRows(cache, conditions, hasGuard, rows[..n]);
      if !Asks(hasGuard, rows[n]) then earlier
      else
        var pending := Pending(cache, conditions, rows[n].text.value, |conditions|);
        if pending == [] then earlier else earlier + [PendingRow(n, rows[n].text.value, pending)]
  }

  /** Each row asked about is asked about once, for exactly what it lacks. */
  ghost predicate AllPending(cache: Cache, conditions: seq<string>, hasGuard: bool, rows: seq<Row>, ps: seq<PendingRow>) {
    && (forall k :: 0 <= k < |ps| ==> IsPending(cache, conditions, hasGuard, rows, ps[k]))
    && (forall j, k :: 0 <= j < k < |ps| ==> ps[j].row < ps[k].row)
  }

  lemma {:induction false} PendingRowsAreRight(cache: Cache, conditions: seq<string>, hasGuard: bool, rows: seq<Row>)
    ensures AllPending(cache, conditions, hasGuard, rows, PendingRows(cache, conditions, hasGuard, rows))
  {
    if rows != [] {
      var n := |rows| - 1;
      PendingRowsAreRight(cache, conditions, hasGuard, rows[..n]);
      if Asks(hasGuard, rows[n]) {
        PendingIsRight(cache, conditions, rows[n].text.value, |conditions|);
      }
      var earlier := PendingRows(cache, conditions, hasGuard, rows[..n]);
      forall k | 0 <= k < |earlier| ensures IsPending(cache, conditions, hasGuard, rows, earlier[k]) && earlier[k].row < n {
        assert IsPending(cache, conditions, hasGuard, rows[..n], earlier[k]);
      }
    }
  }

  ghost predicate Called(pendingRows: seq<PendingRow>, row: nat) {
    exists k :: 0 <= k < |pendingRows| && pendingRows[k].row == row
  }

  /** Every row that still lacks a verdict is asked about. */
  lemma {:induction false} NoRowIsForgotten(cache: Cache, conditions: seq<string>, hasGuard: bool, rows: seq<Row>, row: nat)
    requires row < |rows| && Asks(hasGuard, rows[row]) && Pending(cache, conditions, rows[row].text.value, |conditions|) != []
    ensures Called(PendingRows(cache, conditions, hasGuard, rows), row)
  {
    var n := |rows| - 1;
    var earlier, all := PendingRows(cache, conditions, hasGuard, rows[..n]), PendingRows(cache, conditions, hasGuard, rows);
    if row < n {
      NoRowIsForgotten(cache, conditions, hasGuard, rows[..n], row);
      var k :| 0 <= k < |earlier| && earlier[k].row == row;
      assert all[k] == earlier[k];
    } else {
      assert all[|all| - 1].row == n;
    }
  }

  function RequestOf(conditions: seq<string>, p: PendingRow): Request
    requires InRangeRow(conditions, p)
  {
    Request(p.text, seq(|p.pending|, i requires 0 <= i < |p.pending| => conditions[p.pending[i]]))
  }

  /** What an outcome says about the `i`th of the conditions asked. */
  function Answer(model: Model, outcome: Option<string>, asked: nat, i: nat): Option<bool> {
    if outcome.Some? then model.decode(outcome.value, asked, i) else None
  }

  function Filled(model: Model, known: seq<Option<bool>>, pending: seq<nat>, outcome: Option<string>, upTo: nat): (v: seq<Option<bool>>)
    requires upTo <= |pending| && forall i :: 0 <= i < |pending| ==> pending[i] < |known|
    ensures |v| == |known|
  {
    if upTo == 0 then known
    else
      var answer := Answer(model, outcome, |pending|, upTo - 1);
      var earlier := Filled(model, known, pending, outcome, upTo - 1);
      if answer.Some? then earlier[pending[upTo - 1] := answer] else earlier
  }

  /** Each missing slot takes its own answer and no other; slots already known stay. */
  lemma {:induction false} FilledSlots(model: Model, known: seq<Option<bool>>, pending: seq<nat>, outcome: Option<string>, upTo: nat, b: nat)
    requires upTo <= |pending| && forall i :: 0 <= i < |pending| ==> pending[i] < |known|
    requires forall i, j :: 0 <= i < j < |pending| ==> pending[i] < pending[j]
    requires b < |known| && forall i :: 0 <= i < |pending| ==> known[pending[i]] == None
    ensures forall i :: 0 <= i < upTo && pending[i] == b ==>
              Filled(model, known, pending, outcome, upTo)[b] == Answer(model, outcome, |pending|, i)
    ensures b !in pending[..upTo] ==> Filled(model, known, pending, outcome, upTo)[b] == known[b]
  {
    if upTo > 0 {
      FilledSlots(model, known, pending, outcome, upTo - 1, b);
      assert pending[..upTo] == pending[..upTo - 1] + [pending[upTo - 1]];
      forall i | 0 <= i < upTo && pending[i] == b
        ensures Filled(model, known, pending, outcome, upTo)[b] == Answer(model, outcome, |pending|, i)
      {
        if i == upTo - 1 {
          var earlier := pending[..upTo - 1];
          assert forall j :: 0 <= j < |earlier| ==> earlier[j] == pending[j] != b;
        }
      }
    }
  }

  /** Only verdicts the model gave are cached, each under the prompt that asked for it. */
  function Learnt(model: Model, cache: Cache, conditions: seq<string>, p: PendingRow, outcome: Option<string>, upTo: nat): Cache
    requires upTo <= |p.pending| && InRangeRow(conditions, p)
  {
    if upTo == 0 then cache
    else
      var earlier := Learnt(model, cache, conditions, p, outcome, upTo - 1);
      var answer := Answer(model, outcome, |p.pending|, upTo - 1);
      var key := KeyFor(conditions[p.pending[upTo - 1]], p.text, |p.pending|);
      if answer.None? || key in earlier then earlier else earlier[key := answer.value]
  }

  // ---- the batch ----

  /** What one row holds once its call, if it needed one, has been answered. */
  ghost predicate RowDone(
    model: Model, cache: Cache, conditions: seq<string>, hasGuard: bool, rows: seq<Row>, p: PendingRow,
    outcome: Option<string>, verdicts: seq<Option<bool>>)
  {
    && IsPending(cache, conditions, hasGuard, rows, p)
    && verdicts == Filled(model, Known(cache, conditions, hasGuard, rows[p.row]), p.pending, outcome, |p.pending|)
  }

  /** Writes one row's answer into its slots and the cache. */
  method Apply(model: Model, cache: Cache, conditions: seq<string>, p: PendingRow, answer: string, known: seq<Option<bool>>)
    returns (verdicts: seq<Option<bool>>, learnt: Cache)
    requires |known| == |conditions| && InRangeRow(conditions, p)
    ensures verdicts == Filled(model, known, p.pending, Some(answer), |p.pending|)
    ensures learnt == Learnt(model, cache, conditions, p, Some(answer), |p.pending|)
  {
    verdicts, learnt := known, cache;
    for i := 0 to |p.pending|
      invariant verdicts == Filled(model, known, p.pending, Some(answer), i)
      invariant learnt == Learnt(model, cache, conditions, p, Some(answer), i)
    {
      var verdict := model.decode(answer, |p.pending|, i);
      if verdict.Some? {
        verdicts := verdicts[p.pending[i] := verdict];
        var key := KeyFor(conditions[p.pending[i]], p.text, |p.pending|);
        if key !in learnt {
          learnt := learnt[key := verdict.value];
        }
      }
    }
  }

  lemma {:induction false} NothingFilled(model: Model, known: seq<Option<bool>>, pending: seq<nat>, upTo: nat)
    requires upTo <= |pending| && forall i :: 0 <= i < |pending| ==> pending[i] < |known|
    ensures Filled(model, known, pending, None, upTo) == known
  {
    if upTo > 0 {
      NothingFilled(model, known, pending, upTo - 1);
    }
  }

  method LookUp(cache: Cache, conditions: seq<string>, text: string) returns (slots: seq<Option<bool>>, pending: seq<nat>)
    ensures slots == LookedUp(cache, conditions, text)
    ensures pending == Pending(cache, conditions, text, |conditions|)
  {
    slots, pending := [], [];
    for b := 0 to |conditions|
      invariant |slots| == b && forall c :: 0 <= c < b ==> slots[c] == Cached(cache, conditions[c], text, |conditions|)
      invariant pending == Pending(cache, conditions, text, b)
    {
      var known := Cached(cache, conditions[b], text, |conditions|);
      slots := slots + [known];
      if known.None? {
        pending := pending + [b];
      }
    }
  }

  lemma SkippedRow(cache: Cache, conditions: seq<string>, hasGuard: bool, rows: seq<Row>, row: nat)
    requires row < |rows| && !Asks(hasGuard, rows[row])
    ensures Known(cache, conditions, hasGuard, rows[row]) == AllFalse(|conditions|)
    ensures PendingRows(cache, conditions, hasGuard, rows[..row + 1]) == PendingRows(cache, conditions, hasGuard, rows[..row])
  {
    assert rows[..row + 1][..row] == rows[..row];
  }

  lemma AskedRow(cache: Cache, conditions: seq<string>, hasGuard: bool, rows: seq<Row>, row: nat)
    requires row < |rows| && Asks(hasGuard, rows[row])
    ensures
      var text := rows[row].text.value;
      var pending := Pending(cache, conditions, text, |conditions|);
      var earlier := PendingRows(cache, conditions, hasGuard, rows[..row]);
      && Known(cache, conditions, hasGuard, rows[row]) == LookedUp(cache, conditions, text)
      && InRangeRow(conditions, PendingRow(row, text, pending))
      && PendingRows(cache, conditions, hasGuard, rows[..row + 1])
         == if pending == [] then earlier else earlier + [PendingRow(row, text, pending)]
  {
    assert rows[..row + 1][..row] == rows[..row];
    PendingIsRight(cache, conditions, rows[row].text.value, |conditions|);
  }

  predicate InRange(conditions: seq<string>, pendingRows: seq<PendingRow>) {
    forall k :: 0 <= k < |pendingRows| ==> InRangeRow(conditions, pendingRows[k])
  }

  function Requests(conditions: seq<string>, pendingRows: seq<PendingRow>): (r: seq<Request>)
    requires InRange(conditions, pendingRows)
    ensures |r| == |pendingRows|
  {
    if pendingRows == [] then []
    else Requests(conditions, pendingRows[..|pendingRows| - 1]) + [RequestOf(conditions, pendingRows[|pendingRows| - 1])]
  }

  lemma OneMoreRequest(conditions: seq<string>, pendingRows: seq<PendingRow>, p: PendingRow)
    requires InRange(conditions, pendingRows) && InRangeRow(conditions, p)
    ensures InRange(conditions, pendingRows + [p])
    ensures Requests(conditions, pendingRows + [p]) == Requests(conditions, pendingRows) + [RequestOf(conditions, p)]
  {
    assert (pendingRows + [p])[..|pendingRows|] == pendingRows;
  }

  /** One row: what it holds already, and the call it needs, if it needs one. */
  method PrepareRow(cache: Cache, conditions: seq<string>, hasGuard: bool, rows: seq<Row>, row: nat)
    returns (slots: seq<Option<bool>>, call: Option<PendingRow>)
    requires row < |rows|
    ensures slots == Known(cache, conditions, hasGuard, rows[row])
    ensures PendingRows(cache, conditions, hasGuard, rows[..row + 1])
         == PendingRows(cache, conditions, hasGuard, rows[..row]) + if call.Some? then [call.value] else []
    ensures call.Some? ==> InRangeRow(conditions, call.value)
  {
    if !GuardAllows(hasGuard, rows[row]) || rows[row].text.None? {
      SkippedRow(cache, conditions, hasGuard, rows, row);
      return AllFalse(|conditions|), None;
    }
    AskedRow(cache, conditions, hasGuard, rows, row);
    hide PendingRows, Pending, Known, LookedUp;
    var text := rows[row].text.value;
    var pending;
    slots, pending := LookUp(cache, conditions, text);
    call := if pending == [] then None else Some(PendingRow(row, text, pending));
  }

  /** Gated rows and NULL texts, then the cache, then one request for each row left. */
  method Prepare(cache: Cache, conditions: seq<string>, hasGuard: bool, rows: seq<Row>)
    returns (verdicts: seq<seq<Option<bool>>>, pendingRows: seq<PendingRow>, requests: seq<Request>)
    ensures |verdicts| == |rows| && forall r :: 0 <= r < |rows| ==> verdicts[r] == Known(cache, conditions, hasGuard, rows[r])
    ensures pendingRows == PendingRows(cache, conditions, hasGuard, rows)
    ensures InRange(conditions, pendingRows) && requests == Requests(conditions, pendingRows)
  {
    verdicts, pendingRows, requests := [], [], [];
    assert rows[..0] == [] && InRange(conditions, []) && Requests(conditions, []) == [];
    assert PendingRows(cache, conditions, hasGuard, []) == [];
    hide PendingRows, Pending, Known, InRange, InRangeRow, Requests, RequestOf;
    for row := 0 to |rows|
      invariant |verdicts| == row && forall r :: 0 <= r < row ==> verdicts[r] == Known(cache, conditions, hasGuard, rows[r])
      invariant pendingRows == PendingRows(cache, conditions, hasGuard, rows[..row])
      invariant InRange(conditions, pendingRows) && requests == Requests(conditions, pendingRows)
    {
      var slots, call := PrepareRow(cache, conditions, hasGuard, rows, row);
      verdicts := verdicts + [slots];
      if call.Some? {
        OneMoreRequest(conditions, pendingRows, call.value);
        pendingRows := pendingRows + [call.value];
        requests := requests + [RequestOf(conditions, call.value)];
      }
    }
    assert rows[..|rows|] == rows;
  }

  /** The verdicts once the first so many calls have been answered. */
  ghost predicate Progress(
    model: Model, cache: Cache, conditions: seq<string>, hasGuard: bool, rows: seq<Row>,
    pendingRows: seq<PendingRow>, outcomes: seq<Option<string>>, verdicts: seq<seq<Option<bool>>>)
    requires |outcomes| == |pendingRows|
  {
    && |verdicts| == |rows|
    && (forall k :: 0 <= k < |pendingRows| ==>
          pendingRows[k].row < |rows|
          && RowDone(model, cache, conditions, hasGuard, rows, pendingRows[k], outcomes[k], verdicts[pendingRows[k].row]))
    && (forall r {:trigger Called(pendingRows, r)} :: 0 <= r < |rows| && !Called(pendingRows, r) ==>
          verdicts[r] == Known(cache, conditions, hasGuard, rows[r]))
  }

  lemma CalledLater(pendingRows: seq<PendingRow>, p: PendingRow, row: nat)
    ensures Called(pendingRows + [p], row) <==> Called(pendingRows, row) || p.row == row
  {
    var later := pendingRows + [p];
    if Called(pendingRows, row) {
      var k :| 0 <= k < |pendingRows| && pendingRows[k].row == row;
      assert later[k].row == row;
    }
    assert later[|pendingRows|] == p;
  }

  ghost predicate Later(pendingRows: seq<PendingRow>, p: PendingRow) {
    forall k :: 0 <= k < |pendingRows| ==> pendingRows[k].row < p.row
  }

  lemma ProgressGrows(
    model: Model, cache: Cache, conditions: seq<string>, hasGuard: bool, rows: seq<Row>,
    pendingRows: seq<PendingRow>, outcomes: seq<Option<string>>, verdicts: seq<seq<Option<bool>>>,
    p: PendingRow, outcome: Option<string>, after: seq<seq<Option<bool>>>)
    requires |outcomes| == |pendingRows| && Progress(model, cache, conditions, hasGuard, rows, pendingRows, outcomes, verdicts)
    requires Later(pendingRows, p)
    requires IsPending(cache, conditions, hasGuard, rows, p)
    requires verdicts[p.row] == Known(cache, conditions, hasGuard, rows[p.row])
    requires after == verdicts[p.row := Filled(model, verdicts[p.row], p.pending, outcome, |p.pending|)]
    ensures Progress(model, cache, conditions, hasGuard, rows, pendingRows + [p], outcomes + [outcome], after)
  {
    forall r | 0 <= r < |rows| && !Called(pendingRows + [p], r) ensures after[r] == Known(cache, conditions, hasGuard, rows[r]) {
      CalledLater(pendingRows, p, r);
    }
  }

  lemma {:induction false} NothingLearnt(model: Model, cache: Cache, conditions: seq<string>, p: PendingRow, upTo: nat)
    requires upTo <= |p.pending| && InRangeRow(conditions, p)
    ensures Learnt(model, cache, conditions, p, None, upTo) == cache
  {
    if upTo > 0 {
      NothingLearnt(model, cache, conditions, p, upTo - 1);
    }
  }

  /** One outcome: written if the call succeeded, else the row keeps what it has. */
  method TakeOutcome(
    model: Model, cache: Cache, conditions: seq<string>, p: PendingRow, outcome: Option<string>, verdicts: seq<seq<Option<bool>>>)
    returns (after: seq<seq<Option<bool>>>, learnt: Cache)
    requires p.row < |verdicts| && |verdicts[p.row]| == |conditions| && InRangeRow(conditions, p)
    ensures after == verdicts[p.row := Filled(model, verdicts[p.row], p.pending, outcome, |p.pending|)]
    ensures learnt == Learnt(model, cache, conditions, p, outcome, |p.pending|)
  {
    if outcome.None? {
      NothingFilled(model, verdicts[p.row], p.pending, |p.pending|);
      NothingLearnt(model, cache, conditions, p, |p.pending|);
      return verdicts, cache;
    }
    var slots;
    slots, learnt := Apply(model, cache, conditions, p, outcome.value, verdicts[p.row]);
    after := verdicts[p.row := slots];
  }

  /** Everything answering the `k`th call needs. */
  lemma NextRow(
    model: Model, cache: Cache, conditions: seq<string>, hasGuard: bool, rows: seq<Row>,
    pendingRows: seq<PendingRow>, outcomes: seq<Option<string>>, k: nat, verdicts: seq<seq<Option<bool>>>)
    requires |outcomes| == |pendingRows| && k < |pendingRows|
    requires AllPending(cache, conditions, hasGuard, rows, pendingRows) && InRange(conditions, pendingRows)
    requires Progress(model, cache, conditions, hasGuard, rows, pendingRows[..k], outcomes[..k], verdicts)
    ensures
      var p := pendingRows[k];
      && IsPending(cache, conditions, hasGuard, rows, p) && InRangeRow(conditions, p)
      && p.row < |verdicts| == |rows| && |verdicts[p.row]| == |conditions|
      && verdicts[p.row] == Known(cache, conditions, hasGuard, rows[p.row])
      && Later(pendingRows[..k], p) && InRange(conditions, pendingRows[..k])
  {
    assert !Called(pendingRows[..k], pendingRows[k].row);
  }

  function AllLearnt(model: Model, cache: Cache, conditions: seq<string>, pendingRows: seq<PendingRow>, outcomes: seq<Option<string>>): Cache
    requires |outcomes| == |pendingRows| && InRange(conditions, pendingRows)
  {
    if pendingRows == [] then cache
    else
      var n := |pendingRows| - 1;
      Learnt(model, AllLearnt(model, cache, conditions, pendingRows[..n], outcomes[..n]), conditions, pendingRows[n], outcomes[n],
             |pendingRows[n].pending|)
  }

  lemma NothingLearntYet(model: Model, cache: Cache, conditions: seq<string>)
    ensures InRange(conditions, []) && AllLearnt(model, cache, conditions, [], []) == cache
  {
  }

  lemma OneMoreLearnt(
    model: Model, cache: Cache, conditions: seq<string>, pendingRows: seq<PendingRow>, outcomes: seq<Option<string>>,
    p: PendingRow, outcome: Option<string>)
    requires |outcomes| == |pendingRows| && InRange(conditions, pendingRows) && InRangeRow(conditions, p)
    ensures InRange(conditions, pendingRows + [p])
    ensures AllLearnt(model, cache, conditions, pendingRows + [p], outcomes + [outcome])
         == Learnt(model, AllLearnt(model, cache, conditions, pendingRows, outcomes), conditions, p, outcome, |p.pending|)
  {
    assert (pendingRows + [p])[..|pendingRows|] == pendingRows && (outcomes + [outcome])[..|outcomes|] == outcomes;
  }

  /** The outcomes in turn, each matched with the row that asked. */
  method TakeOutcomes(
    model: Model, cache: Cache, conditions: seq<string>, hasGuard: bool, rows: seq<Row>,
    pendingRows: seq<PendingRow>, outcomes: seq<Option<string>>, known: seq<seq<Option<bool>>>)
    returns (verdicts: seq<seq<Option<bool>>>, learnt: Cache)
    requires |outcomes| == |pendingRows| && AllPending(cache, conditions, hasGuard, rows, pendingRows)
    requires InRange(conditions, pendingRows) && Progress(model, cache, conditions, hasGuard, rows, [], [], known)
    ensures Progress(model, cache, conditions, hasGuard, rows, pendingRows, outcomes, verdicts)
    ensures learnt == AllLearnt(model, cache, conditions, pendingRows, outcomes)
  {
    verdicts, learnt := known, cache;
    ghost var done: seq<PendingRow>, answered: seq<Option<string>> := [], [];
    NothingLearntYet(model, cache, conditions);
    hide *;
    for k := 0 to |pendingRows|
      invariant |done| == |answered| == k && done == pendingRows[..k] && answered == outcomes[..k]
      invariant InRange(conditions, done)
      invariant Progress(model, cache, conditions, hasGuard, rows, done, answered, verdicts)
      invariant learnt == AllLearnt(model, cache, conditions, done, answered)
    {
      var p := pendingRows[k];
      NextRow(model, cache, conditions, hasGuard, rows, pendingRows, outcomes, k, verdicts);
      OneMoreLearnt(model, cache, conditions, done, answered, p, outcomes[k]);
      ghost var before := verdicts;
      verdicts, learnt := TakeOutcome(model, learnt, conditions, p, outcomes[k], verdicts);
      ProgressGrows(model, cache, conditions, hasGuard, rows, done, answered, before, p, outcomes[k], verdicts);
      done, answered := done + [p], answered + [outcomes[k]];
    }
    assert done == pendingRows && answered == outcomes;
  }

  lemma NothingAnswered(model: Model, cache: Cache, conditions: seq<string>, hasGuard: bool, rows: seq<Row>, verdicts: seq<seq<Option<bool>>>)
    requires |verdicts| == |rows| && forall r :: 0 <= r < |rows| ==> verdicts[r] == Known(cache, conditions, hasGuard, rows[r])
    ensures Progress(model, cache, conditions, hasGuard, rows, [], [], verdicts)
    ensures AllLearnt(model, cache, conditions, [], []) == cache
  {
  }

  method ClassifyRows(model: Model, cache: Cache, conditions: seq<string>, hasGuard: bool, rows: seq<Row>)
    returns (verdicts: seq<seq<Option<bool>>>, learnt: Cache, pendingRows: seq<PendingRow>, outcomes: seq<Option<string>>)
    requires model.Answers()
    ensures pendingRows == PendingRows(cache, conditions, hasGuard, rows) && InRange(conditions, pendingRows)
    ensures outcomes == model.complete(Requests(conditions, pendingRows)) && |outcomes| == |pendingRows|
    ensures Progress(model, cache, conditions, hasGuard, rows, pendingRows, outcomes, verdicts)
    ensures learnt == AllLearnt(model, cache, conditions, pendingRows, outcomes)
  {
    var known, requests;
    known, pendingRows, requests := Prepare(cache, conditions, hasGuard, rows);
    PendingRowsAreRight(cache, conditions, hasGuard, rows);
    NothingAnswered(model, cache, conditions, hasGuard, rows, known);
    outcomes := model.complete(requests);
    verdicts, learnt := TakeOutcomes(model, cache, conditions, hasGuard, rows, pendingRows, outcomes, known);
  }

  // ---- exactness ----

  /** The cache holds nothing but what is true. */
  ghost predicate Truthful(cache: Cache, truth: (string, string) -> bool) {
    forall k :: k in cache ==> cache[k] == truth(k.text, k.condition)
  }

  /** Whatever an outcome says about its row is true. */
  ghost predicate Faithful(model: Model, conditions: seq<string>, p: PendingRow, outcome: Option<string>, truth: (string, string) -> bool)
    requires InRangeRow(conditions, p)
  {
    forall i :: 0 <= i < |p.pending| && Answer(model, outcome, |p.pending|, i).Some? ==>
      Answer(model, outcome, |p.pending|, i).value == truth(p.text, conditions[p.pending[i]])
  }

  lemma {:induction false} LearntIsTruthful(
    model: Model, cache: Cache, conditions: seq<string>, p: PendingRow, outcome: Option<string>, upTo: nat, truth: (string, string) -> bool)
    requires upTo <= |p.pending| && InRangeRow(conditions, p)
    requires Truthful(cache, truth) && Faithful(model, conditions, p, outcome, truth)
    ensures Truthful(Learnt(model, cache, conditions, p, outcome, upTo), truth)
  {
    if upTo > 0 {
      LearntIsTruthful(model, cache, conditions, p, outcome, upTo - 1, truth);
    }
  }

  /** A truthful cache stays truthful: only verdicts the model gave are ever cached. */
  lemma {:induction false} CacheStaysTruthful(
    model: Model, cache: Cache, conditions: seq<string>, pendingRows: seq<PendingRow>, outcomes: seq<Option<string>>,
    truth: (string, string) -> bool)
    requires |outcomes| == |pendingRows| && InRange(conditions, pendingRows) && Truthful(cache, truth)
    requires forall k :: 0 <= k < |pendingRows| ==> Faithful(model, conditions, pendingRows[k], outcomes[k], truth)
    ensures Truthful(AllLearnt(model, cache, conditions, pendingRows, outcomes), truth)
  {
    if pendingRows != [] {
      var n := |pendingRows| - 1;
      CacheStaysTruthful(model, cache, conditions, pendingRows[..n], outcomes[..n], truth);
      LearntIsTruthful(model, AllLearnt(model, cache, conditions, pendingRows[..n], outcomes[..n]), conditions,
                       pendingRows[n], outcomes[n], |pendingRows[n].pending|, truth);
    }
  }

  /** The `i`th condition of the `k`th call is the one slot `b` of row `r` was waiting for. */
  ghost predicate AsksFor(pendingRows: seq<PendingRow>, k: int, i: int, r: nat, b: nat) {
    && 0 <= k < |pendingRows| && pendingRows[k].row == r
    && 0 <= i < |pendingRows[k].pending| && pendingRows[k].pending[i] == b
  }

  /** What a slot holds: false for a row the guard turns away or a NULL text, else what the cache
      had, else the answer to the row's own call: NULL only where that call gave none. */
  ghost predicate SlotIsRight(
    model: Model, cache: Cache, conditions: seq<string>, hasGuard: bool, row: Row, r: nat,
    pendingRows: seq<PendingRow>, outcomes: seq<Option<string>>, b: nat, slot: Option<bool>)
    requires |outcomes| == |pendingRows| && b < |conditions|
  {
    if !Asks(hasGuard, row) then slot == Some(false)
    else
      var known := Cached(cache, conditions[b], row.text.value, |conditions|);
      if known.Some? then slot == known
      else exists k, i :: AsksFor(pendingRows, k, i, r, b) && slot == Answer(model, outcomes[k], |pendingRows[k].pending|, i)
  }

  lemma CalledRowIsRight(
    model: Model, cache: Cache, conditions: seq<string>, hasGuard: bool, rows: seq<Row>,
    pendingRows: seq<PendingRow>, outcomes: seq<Option<string>>, k: nat, verdicts: seq<Option<bool>>, b: nat)
    requires |outcomes| == |pendingRows| && b < |conditions| && k < |pendingRows|
    requires RowDone(model, cache, conditions, hasGuard, rows, pendingRows[k], outcomes[k], verdicts)
    ensures SlotIsRight(model, cache, conditions, hasGuard, rows[pendingRows[k].row], pendingRows[k].row, pendingRows, outcomes, b, verdicts[b])
  {
    var p, outcome := pendingRows[k], outcomes[k];
    var known := Known(cache, conditions, hasGuard, rows[p.row]);
    PendingIsRight(cache, conditions, p.text, |conditions|);
    FilledSlots(model, known, p.pending, outcome, |p.pending|, b);
    assert p.pending[..|p.pending|] == p.pending;
    if b in p.pending {
      var i :| 0 <= i < |p.pending| && p.pending[i] == b;
      assert AsksFor(pendingRows, k, i, p.row, b);
      assert verdicts[b] == Answer(model, outcome, |p.pending|, i);
    }
  }

  lemma QuietRowIsRight(
    model: Model, cache: Cache, conditions: seq<string>, hasGuard: bool, rows: seq<Row>,
    pendingRows: seq<PendingRow>, outcomes: seq<Option<string>>, r: nat, b: nat)
    requires |outcomes| == |pendingRows| && b < |conditions| && r < |rows|
    requires pendingRows == PendingRows(cache, conditions, hasGuard, rows) && !Called(pendingRows, r)
    ensures SlotIsRight(model, cache, conditions, hasGuard, rows[r], r, pendingRows, outcomes, b,
                        Known(cache, conditions, hasGuard, rows[r])[b])
  {
    if Asks(hasGuard, rows[r]) {
      PendingIsRight(cache, conditions, rows[r].text.value, |conditions|);
      if Cached(cache, conditions[b], rows[r].text.value, |conditions|).None? {
        NoRowIsForgotten(cache, conditions, hasGuard, rows, r);
      }
    }
  }

  /** Every slot of every row of a batch holds exactly that, whatever failed. */
  lemma BatchIsRight(
    model: Model, cache: Cache, conditions: seq<string>, hasGuard: bool, rows: seq<Row>,
    pendingRows: seq<PendingRow>, outcomes: seq<Option<string>>, verdicts: seq<seq<Option<bool>>>, r: nat, b: nat)
    requires |outcomes| == |pendingRows| && r < |rows| && b < |conditions|
    requires pendingRows == PendingRows(cache, conditions, hasGuard, rows)
    requires Progress(model, cache, conditions, hasGuard, rows, pendingRows, outcomes, verdicts)
    ensures |verdicts[r]| == |conditions|
    ensures SlotIsRight(model, cache, conditions, hasGuard, rows[r], r, pendingRows, outcomes, b, verdicts[r][b])
  {
    if Called(pendingRows, r) {
      var k :| 0 <= k < |pendingRows| && pendingRows[k].row == r;
      CalledRowIsRight(model, cache, conditions, hasGuard, rows, pendingRows, outcomes, k, verdicts[r], b);
    } else {
      QuietRowIsRight(model, cache, conditions, hasGuard, rows, pendingRows, outcomes, r, b);
    }
  }

  /** A call asks for what the cache lacks. */
  lemma AskedIsLacking(
    cache: Cache, conditions: seq<string>, hasGuard: bool, rows: seq<Row>, pendingRows: seq<PendingRow>, k: int, i: int, r: nat, b: nat)
    requires pendingRows == PendingRows(cache, conditions, hasGuard, rows) && AsksFor(pendingRows, k, i, r, b)
    ensures r < |rows| && b < |conditions| && Asks(hasGuard, rows[r])
    ensures pendingRows[k].text == rows[r].text.value && InRangeRow(conditions, pendingRows[k])
    ensures Cached(cache, conditions[b], rows[r].text.value, |conditions|).None?
  {
    PendingRowsAreRight(cache, conditions, hasGuard, rows);
    hide PendingRows, Cached;
    var p := pendingRows[k];
    assert IsPending(cache, conditions, hasGuard, rows, p);
    PendingIsRight(cache, conditions, p.text, |conditions|);
    assert b in p.pending;
  }

  /** No slot is asked for twice. */
  lemma AskedOnce(
    cache: Cache, conditions: seq<string>, hasGuard: bool, rows: seq<Row>, pendingRows: seq<PendingRow>,
    k: int, i: int, k': int, i': int, r: nat, b: nat)
    requires pendingRows == PendingRows(cache, conditions, hasGuard, rows)
    requires AsksFor(pendingRows, k, i, r, b) && AsksFor(pendingRows, k', i', r, b)
    ensures k' == k && i' == i
  {
    PendingRowsAreRight(cache, conditions, hasGuard, rows);
    hide PendingRows, Cached;
    assert IsPending(cache, conditions, hasGuard, rows, pendingRows[k]);
    PendingIsRight(cache, conditions, pendingRows[k].text, |conditions|);
  }

  /** A slot is NULL exactly when its row's own call was asked for it and gave no answer; there is
      no other answer to take it from. */
  lemma NullSlotIff(
    model: Model, cache: Cache, conditions: seq<string>, hasGuard: bool, rows: seq<Row>,
    pendingRows: seq<PendingRow>, outcomes: seq<Option<string>>, verdicts: seq<seq<Option<bool>>>, r: nat, b: nat)
    requires |outcomes| == |pendingRows| && r < |rows| && b < |conditions|
    requires pendingRows == PendingRows(cache, conditions, hasGuard, rows)
    requires Progress(model, cache, conditions, hasGuard, rows, pendingRows, outcomes, verdicts)
    ensures |verdicts[r]| == |conditions|
    ensures verdicts[r][b] == None <==>
      exists k, i :: AsksFor(pendingRows, k, i, r, b) && Answer(model, outcomes[k], |pendingRows[k].pending|, i) == None
  {
    BatchIsRight(model, cache, conditions, hasGuard, rows, pendingRows, outcomes, verdicts, r, b);
    hide PendingRows, Cached, Progress, Answer;
    if k, i :| AsksFor(pendingRows, k, i, r, b) {
      AskedIsLacking(cache, conditions, hasGuard, rows, pendingRows, k, i, r, b);
      forall k', i' | AsksFor(pendingRows, k', i', r, b) ensures k' == k && i' == i {
        AskedOnce(cache, conditions, hasGuard, rows, pendingRows, k, i, k', i', r, b);
      }
    }
  }

  /** With a truthful cache and model, whatever a slot of an asked row holds is the truth. */
  lemma AnsweredSlotIsTrue(
    model: Model, cache: Cache, conditions: seq<string>, hasGuard: bool, rows: seq<Row>,
    pendingRows: seq<PendingRow>, outcomes: seq<Option<string>>, verdicts: seq<seq<Option<bool>>>,
    truth: (string, string) -> bool, r: nat, b: nat)
    requires |outcomes| == |pendingRows| && InRange(conditions, pendingRows) && r < |rows| && b < |conditions|
    requires pendingRows == PendingRows(cache, conditions, hasGuard, rows)
    requires Progress(model, cache, conditions, hasGuard, rows, pendingRows, outcomes, verdicts)
    requires Truthful(cache, truth)
    requires forall k :: 0 <= k < |pendingRows| ==> Faithful(model, conditions, pendingRows[k], outcomes[k], truth)
    ensures |verdicts[r]| == |conditions|
    ensures Asks(hasGuard, rows[r]) && verdicts[r][b].Some? ==> verdicts[r][b].value == truth(rows[r].text.value, conditions[b])
  {
    BatchIsRight(model, cache, conditions, hasGuard, rows, pendingRows, outcomes, verdicts, r, b);
    hide PendingRows, Progress, Answer;
    if k, i :| AsksFor(pendingRows, k, i, r, b) && verdicts[r][b] == Answer(model, outcomes[k], |pendingRows[k].pending|, i) {
      AskedIsLacking(cache, conditions, hasGuard, rows, pendingRows, k, i, r, b);
      assert Faithful(model, conditions, pendingRows[k], outcomes[k], truth);
    }
  }
}

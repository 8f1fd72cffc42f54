/**
 Running the stack of classify nodes a projection was rewritten to: node after node over a batch
 of rows, with one verdict cache, each node asking the model for what its rows still lack. What
 the rewritten projection then reads is what the query wrote.
 */
module ClassifyRun {
  import opened Wrappers
  import opened SelectExpr
  import opened ClassifyRewrite
  import opened ClassifyStack
  import opened ClassifyBatch

  /** One node's verdicts, by row and branch. */
  type Slots = seq<seq<Option<bool>>>

  datatype NodeRun = NodeRun(pendingRows: seq<PendingRow>, outcomes: seq<Option<string>>, verdicts: Slots)

  function SlotValue(slot: Option<bool>): Value {
    if slot.Some? then Bool(slot.value) else Null
  }

  function SlotAt(nodes: seq<Slots>, g: nat, b: nat, r: nat): Option<bool> {
    if g < |nodes| && r < |nodes[g]| && b < |nodes[g][r]| then nodes[g][r][b] else None
  }

  /** Row `r` of a table once the nodes have appended their columns. */
  function Over(nodes: seq<Slots>, r: nat, row: World): World {
    row.(classes := (g: nat, b: nat) => SlotValue(SlotAt(nodes, g, b, r)))
  }

  /** A guard is a conjunction of `IS NOT TRUE`s, so never anything but a boolean. */
  function GuardCell(value: Value): Option<bool> {
    match value
    case Null => None
    case Bool(b) => Some(b)
    case _ => Some(false)
  }

  /** What a node reads of a row: its guard and its text. */
  function InputRow(group: Group, row: World): Row {
    var text := Eval(group.text, row);
    Row(if group.guard.Some? then GuardCell(Eval(group.guard.value, row)) else None,
        if text == Null then None else Some(row.cast(text)))
  }

  function Inputs(group: Group, nodes: seq<Slots>, table: seq<World>): (rows: seq<Row>)
    ensures |rows| == |table|
  {
    seq(|table|, r requires 0 <= r < |table| => InputRow(group, Over(nodes, r, table[r])))
  }

  function Nodes(runs: seq<NodeRun>): (nodes: seq<Slots>)
    ensures |nodes| == |runs|
  {
    seq(|runs|, g requires 0 <= g < |runs| => runs[g].verdicts)
  }

  ghost predicate Ran(model: Model, cache: Cache, group: Group, rows: seq<Row>, run: NodeRun) {
    && run.pendingRows == PendingRows(cache, group.conditions, group.guard.Some?, rows)
    && InRange(group.conditions, run.pendingRows) && |run.outcomes| == |run.pendingRows|
    && run.outcomes == model.complete(Requests(group.conditions, run.pendingRows))
    && Progress(model, cache, group.conditions, group.guard.Some?, rows, run.pendingRows, run.outcomes, run.verdicts)
  }

  /** The cache after these nodes. `models` is the model as each node finds it. */
  function CacheAfter(models: nat -> Model, cache: Cache, groups: seq<Group>, runs: seq<NodeRun>): Cache {
    if runs == [] then cache
    else
      var g := |runs| - 1;
      var before := CacheAfter(models, cache, groups, runs[..g]);
      var run := runs[g];
      if g < |groups| && InRange(groups[g].conditions, run.pendingRows) && |run.outcomes| == |run.pendingRows|
      then AllLearnt(models(g), before, groups[g].conditions, run.pendingRows, run.outcomes)
      else before
  }

  /** The nodes ran in order, each over the rows and the cache the ones below left. */
  ghost predicate Executed(models: nat -> Model, cache: Cache, groups: seq<Group>, table: seq<World>, runs: seq<NodeRun>) {
    runs != [] ==>
      var g := |runs| - 1;
      && g < |groups| && Executed(models, cache, groups, table, runs[..g])
      && Ran(models(g), CacheAfter(models, cache, groups, runs[..g]), groups[g],
             Inputs(groups[g], Nodes(runs[..g]), table), runs[g])
  }

  lemma OneMoreNode(
    models: nat -> Model, cache: Cache, groups: seq<Group>, table: seq<World>, runs: seq<NodeRun>, run: NodeRun)
    requires Executed(models, cache, groups, table, runs) && |runs| < |groups|
    requires Ran(models(|runs|), CacheAfter(models, cache, groups, runs), groups[|runs|],
                 Inputs(groups[|runs|], Nodes(runs), table), run)
    ensures Executed(models, cache, groups, table, runs + [run])
    ensures Nodes(runs + [run]) == Nodes(runs) + [run.verdicts]
    ensures InRange(groups[|runs|].conditions, run.pendingRows) && |run.outcomes| == |run.pendingRows|
    ensures CacheAfter(models, cache, groups, runs + [run]) ==
      AllLearnt(models(|runs|), CacheAfter(models, cache, groups, runs), groups[|runs|].conditions, run.pendingRows, run.outcomes)
  {
    hide PendingRows, Progress, AllLearnt, InRange, Inputs;
    assert (runs + [run])[..|runs|] == runs;
  }

  method RunStack(models: nat -> Model, cache: Cache, groups: seq<Group>, table: seq<World>)
    returns (nodes: seq<Slots>, learnt: Cache, runs: seq<NodeRun>)
    requires forall g :: models(g).Answers()
    ensures |runs| == |groups| && Executed(models, cache, groups, table, runs)
    ensures nodes == Nodes(runs) && learnt == CacheAfter(models, cache, groups, runs)
  {
    nodes, learnt, runs := [], cache, [];
    assert Executed(models, cache, groups, table, runs) && nodes == Nodes(runs) && learnt == CacheAfter(models, cache, groups, runs);
    hide PendingRows, Progress, AllLearnt, InRange, Inputs, CacheAfter, Executed, Nodes, Model.Answers;
    for g := 0 to |groups|
      invariant |runs| == g && Executed(models, cache, groups, table, runs)
      invariant nodes == Nodes(runs) && learnt == CacheAfter(models, cache, groups, runs)
    {
      var conditions, hasGuard := groups[g].conditions, groups[g].guard.Some?;
      var verdicts, after, pendingRows, outcomes := ClassifyRows(models(g), learnt, conditions, hasGuard, Inputs(groups[g], nodes, table));
      var run := NodeRun(pendingRows, outcomes, verdicts);
      OneMoreNode(models, cache, groups, table, runs, run);
      nodes, learnt, runs := nodes + [verdicts], after, runs + [run];
    }
  }

  // ---- every node reads the table's own rows ----

  lemma InputIgnoresBelow(group: Group, nodes: seq<Slots>, r: nat, row: World)
    requires Plain(group.text) && GuardPlain(group.guard)
    ensures InputRow(group, Over(nodes, r, row)) == InputRow(group, row)
  {
    var classes := Over(nodes, r, row).classes;
    SameValue(group.text, row, classes);
    if group.guard.Some? {
      SameValue(group.guard.value, row, classes);
    }
  }

  lemma InputsIgnoreBelow(group: Group, nodes: seq<Slots>, table: seq<World>)
    requires Plain(group.text) && GuardPlain(group.guard)
    ensures Inputs(group, nodes, table) == Inputs(group, [], table)
  {
    forall r | 0 <= r < |table| ensures Inputs(group, nodes, table)[r] == Inputs(group, [], table)[r] {
      InputIgnoresBelow(group, nodes, r, table[r]);
      InputIgnoresBelow(group, [], r, table[r]);
    }
  }

  /** The `g`th node's run, over the rows of the table. */
  lemma {:induction false} NodeRan(models: nat -> Model, cache: Cache, groups: seq<Group>, table: seq<World>, runs: seq<NodeRun>, g: nat)
    requires Executed(models, cache, groups, table, runs) && g < |runs| && PlainGroups(groups)
    ensures g < |groups|
    ensures Ran(models(g), CacheAfter(models, cache, groups, runs[..g]), groups[g], Inputs(groups[g], [], table), runs[g])
  {
    hide Ran, CacheAfter, Inputs, Nodes, Plain;
    var last := |runs| - 1;
    if g < last {
      NodeRan(models, cache, groups, table, runs[..last], g);
      assert runs[..last][..g] == runs[..g];
    } else {
      InputsIgnoreBelow(groups[g], Nodes(runs[..g]), table);
    }
  }

  /** What a slot of the executed stack holds, and that it has one for every row and branch. */
  lemma ExecutedSlotIsRight(
    models: nat -> Model, cache: Cache, groups: seq<Group>, table: seq<World>, runs: seq<NodeRun>, g: nat, b: nat, r: nat)
    requires Executed(models, cache, groups, table, runs) && PlainGroups(groups)
    requires g < |runs| && r < |table| && g < |groups| && b < |groups[g].conditions|
    ensures
      var run, group := runs[g], groups[g];
      && |run.outcomes| == |run.pendingRows| && r < |run.verdicts| && |run.verdicts[r]| == |group.conditions|
      && SlotAt(Nodes(runs), g, b, r) == run.verdicts[r][b]
      && SlotIsRight(models(g), CacheAfter(models, cache, groups, runs[..g]), group.conditions, group.guard.Some?,
                     InputRow(group, table[r]), r, run.pendingRows, run.outcomes, b, run.verdicts[r][b])
  {
    var run, group, rows := runs[g], groups[g], Inputs(groups[g], [], table);
    NodeRan(models, cache, groups, table, runs, g);
    InputIgnoresBelow(group, [], r, table[r]);
    BatchIsRight(models(g), CacheAfter(models, cache, groups, runs[..g]), group.conditions, group.guard.Some?, rows,
                 run.pendingRows, run.outcomes, run.verdicts, r, b);
  }

  // ---- which oracle the columns speak for ----

  /** On this row the `b`th condition of node `g` is asked of a text. */
  ghost predicate Asked(groups: seq<Group>, row: World, g: nat, b: nat, text: string, condition: string) {
    && g < |groups| && b < |groups[g].conditions| && groups[g].conditions[b] == condition
    && Admits(groups[g].guard, row)
    && Eval(groups[g].text, row) != Null && row.cast(Eval(groups[g].text, row)) == text
  }

  /** Whatever is asked of one text under two guards got the same answer, or failed, both times. */
  ghost predicate OneAnswer(groups: seq<Group>, nodes: seq<Slots>, r: nat, row: World) {
    forall g, b, h, c, text, condition
      {:trigger Asked(groups, row, g, b, text, condition), Asked(groups, row, h, c, text, condition)} ::
      Asked(groups, row, g, b, text, condition) && Asked(groups, row, h, c, text, condition)
      ==> SlotAt(nodes, g, b, r) == SlotAt(nodes, h, c, r)
  }

  function VerdictOf(slot: Option<bool>): Verdict {
    if slot.None? then Failed else if slot.value then Yes else No
  }

  ghost function AnswerFor(groups: seq<Group>, nodes: seq<Slots>, r: nat, row: World, text: string, condition: string): Verdict {
    if exists g, b :: Asked(groups, row, g, b, text, condition) then
      var g, b :| Asked(groups, row, g, b, text, condition);
      VerdictOf(SlotAt(nodes, g, b, r))
    else No
  }

  /** The oracle that answers as the run did. */
  ghost function OracleOf(groups: seq<Group>, nodes: seq<Slots>, r: nat, row: World): (string, string) -> Verdict {
    (text, condition) => AnswerFor(groups, nodes, r, row, text, condition)
  }

  /** The columns hold what the rewrite takes them to hold, for this oracle. */
  ghost predicate SpeakFor(groups: seq<Group>, nodes: seq<Slots>, r: nat, row: World, oracle: (string, string) -> Verdict) {
    forall g: nat, b: nat :: Over(nodes, r, row).classes(g, b) == ColumnValue(groups, g, b, row.(oracle := oracle))
  }

  /** No text asks the model itself: a later pass rejects a marker inside another's text. */
  ghost predicate TextsAskNothing(groups: seq<Group>) {
    forall g :: 0 <= g < |groups| ==> !ContainsMeans(groups[g].text)
  }

  function AsSlot(verdict: Verdict): Option<bool> {
    match verdict
    case Yes => Some(true)
    case No => Some(false)
    case Failed => None
  }

  lemma ColumnUnderOracle(groups: seq<Group>, g: nat, b: nat, row: World, oracle: (string, string) -> Verdict)
    requires PlainGroups(groups) && TextsAskNothing(groups) && g < |groups| && b < |groups[g].conditions|
    ensures
      var text := Eval(groups[g].text, row);
      ColumnValue(groups, g, b, row.(oracle := oracle)) ==
        if Admits(groups[g].guard, row) && text != Null
        then SlotValue(AsSlot(oracle(row.cast(text), groups[g].conditions[b])))
        else Bool(false)
  {
    SameWithoutMarkers(groups[g].text, row, oracle);
    if groups[g].guard.Some? {
      SameWithoutMarkers(groups[g].guard.value, row, oracle);
    }
  }

  /** Complete: every node has run, and row `r` is one of the table's. */
  ghost predicate Complete(models: nat -> Model, cache: Cache, groups: seq<Group>, table: seq<World>, runs: seq<NodeRun>, r: nat) {
    && Executed(models, cache, groups, table, runs) && |runs| == |groups| && r < |table|
    && PlainGroups(groups) && TextsAskNothing(groups)
  }

  lemma UnaskedSlotIsFalse(
    models: nat -> Model, cache: Cache, groups: seq<Group>, table: seq<World>, runs: seq<NodeRun>, r: nat, g: nat, b: nat)
    requires Complete(models, cache, groups, table, runs, r) && g < |groups| && b < |groups[g].conditions|
    requires !(Admits(groups[g].guard, table[r]) && Eval(groups[g].text, table[r]) != Null)
    ensures SlotAt(Nodes(runs), g, b, r) == Some(false)
  {
    ExecutedSlotIsRight(models, cache, groups, table, runs, g, b, r);
  }

  lemma VerdictsFit(model: Model, cache: Cache, group: Group, rows: seq<Row>, run: NodeRun, r: nat)
    requires Ran(model, cache, group, rows, run) && r < |rows|
    ensures r < |run.verdicts| && |run.verdicts[r]| == |group.conditions|
  {
    if Called(run.pendingRows, r) {
      var k :| 0 <= k < |run.pendingRows| && run.pendingRows[k].row == r;
    }
  }

  lemma NoSlotElsewhere(
    models: nat -> Model, cache: Cache, groups: seq<Group>, table: seq<World>, runs: seq<NodeRun>, r: nat, g: nat, b: nat)
    requires Complete(models, cache, groups, table, runs, r) && !(g < |groups| && b < |groups[g].conditions|)
    ensures SlotAt(Nodes(runs), g, b, r) == None
  {
    if g < |groups| {
      NodeRan(models, cache, groups, table, runs, g);
      VerdictsFit(models(g), CacheAfter(models, cache, groups, runs[..g]), groups[g], Inputs(groups[g], [], table), runs[g], r);
    }
  }

  lemma OneAnswerSpeaks(
    models: nat -> Model, cache: Cache, groups: seq<Group>, table: seq<World>, runs: seq<NodeRun>, r: nat)
    requires Complete(models, cache, groups, table, runs, r) && OneAnswer(groups, Nodes(runs), r, table[r])
    ensures SpeakFor(groups, Nodes(runs), r, table[r], OracleOf(groups, Nodes(runs), r, table[r]))
  {
    var nodes, row := Nodes(runs), table[r];
    var oracle := OracleOf(groups, nodes, r, row);
    hide Executed, Eval, Admits, ColumnValue, Nodes, PlainGroups, TextsAskNothing, SlotAt;
    forall g: nat, b: nat ensures Over(nodes, r, row).classes(g, b) == ColumnValue(groups, g, b, row.(oracle := oracle)) {
      if g < |groups| && b < |groups[g].conditions| {
        ColumnUnderOracle(groups, g, b, row, oracle);
        if Admits(groups[g].guard, row) && Eval(groups[g].text, row) != Null {
          assert Asked(groups, row, g, b, row.cast(Eval(groups[g].text, row)), groups[g].conditions[b]);
        } else {
          UnaskedSlotIsFalse(models, cache, groups, table, runs, r, g, b);
        }
      } else {
        NoSlotElsewhere(models, cache, groups, table, runs, r, g, b);
      }
    }
  }

  /** There is an oracle the executed columns speak for exactly when nothing asked of one text under
      two guards was answered two ways. */
  lemma SomeOracleIff(models: nat -> Model, cache: Cache, groups: seq<Group>, table: seq<World>, runs: seq<NodeRun>, r: nat)
    requires Complete(models, cache, groups, table, runs, r)
    ensures (exists oracle :: SpeakFor(groups, Nodes(runs), r, table[r], oracle)) <==> OneAnswer(groups, Nodes(runs), r, table[r])
  {
    var nodes, row := Nodes(runs), table[r];
    if OneAnswer(groups, nodes, r, row) {
      OneAnswerSpeaks(models, cache, groups, table, runs, r);
    }
    if oracle :| SpeakFor(groups, nodes, r, row, oracle) {
      forall g, b, h, c, text, condition | Asked(groups, row, g, b, text, condition) && Asked(groups, row, h, c, text, condition)
        ensures SlotAt(nodes, g, b, r) == SlotAt(nodes, h, c, r)
      {
        ColumnUnderOracle(groups, g, b, row, oracle);
        ColumnUnderOracle(groups, h, c, row, oracle);
        assert Over(nodes, r, row).classes(g, b) == SlotValue(AsSlot(oracle(text, condition)));
        assert Over(nodes, r, row).classes(h, c) == SlotValue(AsSlot(oracle(text, condition)));
      }
    }
  }

  // ---- what the query gets ----

  /** Rewrite a SELECT list, run its nodes over any batch from any cache, evaluate what is left
      over the columns they appended: on every row where nothing was answered two ways, the values
      are those of the list the query wrote, asked of the oracle that answers as the run did. */
  lemma ExecutedPlanMeansTheQuery(
    exprs: Exprs, models: nat -> Model, cache: Cache, table: seq<World>, runs: seq<NodeRun>, r: nat)
    requires AllPlain(exprs) && RewriteProjection(exprs).Done? && TextsAskNothing(RewriteProjection(exprs).groups)
    requires
      var groups := RewriteProjection(exprs).groups;
      && Executed(models, cache, groups, table, runs) && |runs| == |groups| && r < |table|
      && OneAnswer(groups, Nodes(runs), r, table[r])
    ensures
      var rewritten := RewriteProjection(exprs);
      EvalAll(rewritten.value, Over(Nodes(runs), r, table[r]))
      == EvalAll(exprs, table[r].(oracle := OracleOf(rewritten.groups, Nodes(runs), r, table[r])))
  {
    var rewritten, nodes, row := RewriteProjection(exprs), Nodes(runs), table[r];
    var oracle := OracleOf(rewritten.groups, nodes, r, row);
    AllStayPlain(exprs, None, []);
    ProjectionKeepsItsMeaning(exprs);
    OneAnswerSpeaks(models, cache, rewritten.groups, table, runs, r);
    var asked := row.(oracle := oracle);
    var above := Above(rewritten.groups, asked);
    SameValues(rewritten.value, above, Over(nodes, r, row).classes);
    AllSameWithoutMarkers(rewritten.value, Over(nodes, r, row), oracle);
    assert above.(classes := Over(nodes, r, row).classes) == Over(nodes, r, row).(oracle := oracle);
  }

  // ---- a truthful model ----

  ghost predicate RunFaithful(model: Model, group: Group, run: NodeRun, truth: (string, string) -> bool) {
    forall k :: 0 <= k < |run.pendingRows| && k < |run.outcomes| && InRangeRow(group.conditions, run.pendingRows[k])
      ==> Faithful(model, group.conditions, run.pendingRows[k], run.outcomes[k], truth)
  }

  ghost predicate AllFaithful(models: nat -> Model, groups: seq<Group>, runs: seq<NodeRun>, truth: (string, string) -> bool) {
    forall g :: 0 <= g < |runs| && g < |groups| ==> RunFaithful(models(g), groups[g], runs[g], truth)
  }

  lemma {:induction false} CacheAfterIsTruthful(
    models: nat -> Model, cache: Cache, groups: seq<Group>, runs: seq<NodeRun>, truth: (string, string) -> bool)
    requires Truthful(cache, truth) && AllFaithful(models, groups, runs, truth)
    ensures Truthful(CacheAfter(models, cache, groups, runs), truth)
  {
    if runs != [] {
      var g := |runs| - 1;
      CacheAfterIsTruthful(models, cache, groups, runs[..g], truth);
      var run := runs[g];
      if g < |groups| && InRange(groups[g].conditions, run.pendingRows) && |run.outcomes| == |run.pendingRows| {
        assert RunFaithful(models(g), groups[g], run, truth);
        CacheStaysTruthful(models(g), CacheAfter(models, cache, groups, runs[..g]), groups[g].conditions,
                           run.pendingRows, run.outcomes, truth);
      }
    }
  }

  lemma RanSlotIsTrue(
    model: Model, cache: Cache, group: Group, rows: seq<Row>, run: NodeRun, truth: (string, string) -> bool, r: nat, b: nat)
    requires Ran(model, cache, group, rows, run) && r < |rows| && b < |group.conditions|
    requires Truthful(cache, truth) && RunFaithful(model, group, run, truth)
    ensures r < |run.verdicts| && |run.verdicts[r]| == |group.conditions|
    ensures Asks(group.guard.Some?, rows[r]) && run.verdicts[r][b].Some? ==>
      run.verdicts[r][b].value == truth(rows[r].text.value, group.conditions[b])
  {
    hide PendingRows, Faithful;
    AnsweredSlotIsTrue(model, cache, group.conditions, group.guard.Some?, rows,
                       run.pendingRows, run.outcomes, run.verdicts, truth, r, b);
  }

  lemma AskedInput(groups: seq<Group>, table: seq<World>, r: nat, g: nat, b: nat, text: string, condition: string)
    requires r < |table| && Asked(groups, table[r], g, b, text, condition) && PlainGroups(groups)
    ensures
      var row := Inputs(groups[g], [], table)[r];
      Asks(groups[g].guard.Some?, row) && row.text == Some(text)
  {
    InputIgnoresBelow(groups[g], [], r, table[r]);
  }

  /** With a model that is never wrong, a slot that holds an answer holds the truth. */
  lemma AskedSlotIsTrue(
    models: nat -> Model, cache: Cache, groups: seq<Group>, table: seq<World>, runs: seq<NodeRun>, r: nat,
    truth: (string, string) -> bool, g: nat, b: nat, text: string, condition: string)
    requires Complete(models, cache, groups, table, runs, r)
    requires Truthful(cache, truth) && AllFaithful(models, groups, runs, truth)
    requires Asked(groups, table[r], g, b, text, condition)
    ensures
      var slot := SlotAt(Nodes(runs), g, b, r);
      slot.Some? ==> slot.value == truth(text, condition)
  {
    NodeRan(models, cache, groups, table, runs, g);
    CacheAfterIsTruthful(models, cache, groups, runs[..g], truth);
    AskedInput(groups, table, r, g, b, text, condition);
    hide Ran, CacheAfter, Truthful, RunFaithful, Executed, Asks, PlainGroups, TextsAskNothing;
    RanSlotIsTrue(models(g), CacheAfter(models, cache, groups, runs[..g]), groups[g], Inputs(groups[g], [], table), runs[g], truth, r, b);
  }

  /** Then two answers can only differ by one of them being missing: a question that failed under one
      guard and was answered under another. */
  ghost predicate FailsAlike(groups: seq<Group>, nodes: seq<Slots>, r: nat, row: World) {
    forall g, b, h, c, text, condition
      {:trigger Asked(groups, row, g, b, text, condition), Asked(groups, row, h, c, text, condition)} ::
      Asked(groups, row, g, b, text, condition) && Asked(groups, row, h, c, text, condition)
      ==> (SlotAt(nodes, g, b, r).None? <==> SlotAt(nodes, h, c, r).None?)
  }

  lemma TruthfulRunsDifferOnlyInFailures(
    models: nat -> Model, cache: Cache, groups: seq<Group>, table: seq<World>, runs: seq<NodeRun>, r: nat,
    truth: (string, string) -> bool)
    requires Complete(models, cache, groups, table, runs, r)
    requires Truthful(cache, truth) && AllFaithful(models, groups, runs, truth)
    ensures OneAnswer(groups, Nodes(runs), r, table[r]) <==> FailsAlike(groups, Nodes(runs), r, table[r])
  {
    if FailsAlike(groups, Nodes(runs), r, table[r]) {
      forall g, b, h, c, text, condition
        | Asked(groups, table[r], g, b, text, condition) && Asked(groups, table[r], h, c, text, condition)
        ensures SlotAt(Nodes(runs), g, b, r) == SlotAt(Nodes(runs), h, c, r)
      {
        AskedSlotIsTrue(models, cache, groups, table, runs, r, truth, g, b, text, condition);
        AskedSlotIsTrue(models, cache, groups, table, runs, r, truth, h, c, text, condition);
      }
    }
  }
}

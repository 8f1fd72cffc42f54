/**
 Turning a WHERE into semantic stages: plain conjuncts filter first, then the `MEANS` conjuncts
 one group per text, indexed groups innermost, each group fused into one question
 or stacked. The plan keeps the rows the WHERE keeps, in order.
 */
module MeansRewrite {
  import opened Wrappers
  import opened SelectExpr

  // ---- plans over rows ----

  datatype Plan =
    | Input
    | Filter(test: Expr, input: Plan)
    | SemFilter(text: Expr, condition: string, recall: Option<Recall>, input: Plan)
    | Classify(text: Expr, conditions: seq<string>, id: nat, input: Plan)
    | DropClasses(input: Plan) // the projection back to the input's columns

  /** Rows of a table have no class columns. */
  const NO_CLASSES: (nat, nat) -> Value := (g: nat, b: nat) => Null

  ghost predicate Bare(rows: seq<World>) {
    forall i :: 0 <= i < |rows| ==> rows[i].classes == NO_CLASSES
  }

  /** What a row must satisfy to be kept. */
  datatype Test =
    | True(e: Expr)
    | SaysYes(text: Expr, condition: string)
    | Stacked(text: Expr, specs: seq<Spec>)
    | Staged(groups: seq<TextGroup>)
    | Plainly(es: seq<Expr>)

  predicate ModelSaysYes(text: Expr, condition: string, w: World) {
    MeansValue(Eval(text, w), condition, w) == Bool(true)
  }

  predicate SpecsHold(text: Expr, specs: seq<Spec>, w: World) {
    forall i :: 0 <= i < |specs| ==> ModelSaysYes(text, specs[i].condition, w)
  }

  predicate AllHold(groups: seq<TextGroup>, w: World) {
    forall i :: 0 <= i < |groups| ==> SpecsHold(groups[i].text, groups[i].specs, w)
  }

  predicate Passes(test: Test, w: World) {
    match test
    case True(e) => Eval(e, w) == Bool(true)
    case SaysYes(text, condition) => ModelSaysYes(text, condition, w)
    case Stacked(text, specs) => SpecsHold(text, specs, w)
    case Staged(groups) => AllHold(groups, w)
    case Plainly(es) => AllTrue(es, w)
  }

  function Where(rows: seq<World>, test: Test): seq<World> {
    if rows == [] then []
    else
      var n := |rows| - 1;
      Where(rows[..n], test) + if Passes(test, rows[n]) then [rows[n]] else []
  }

  /** The row with a label for each condition added. */
  function Labelled(w: World, text: Expr, conditions: seq<string>, id: nat): World {
    w.(classes := (g: nat, b: nat) =>
      if g == id && b < |conditions| then MeansValue(Eval(text, w), conditions[b], w) else w.classes(g, b))
  }

  function LabelAll(rows: seq<World>, text: Expr, conditions: seq<string>, id: nat): seq<World> {
    if rows == [] then []
    else LabelAll(rows[..|rows| - 1], text, conditions, id) + [Labelled(rows[|rows| - 1], text, conditions, id)]
  }

  function DropAll(rows: seq<World>): seq<World> {
    if rows == [] then [] else DropAll(rows[..|rows| - 1]) + [rows[|rows| - 1].(classes := NO_CLASSES)]
  }

  /** Semantic filters are taken to be exact: they keep the rows the model says yes to. */
  function Run(plan: Plan, rows: seq<World>): seq<World> {
    match plan
    case Input => rows
    case Filter(test, input) => Where(Run(input, rows), True(test))
    case SemFilter(text, condition, _, input) => Where(Run(input, rows), SaysYes(text, condition))
    case Classify(text, conditions, id, input) => LabelAll(Run(input, rows), text, conditions, id)
    case DropClasses(input) => DropAll(Run(input, rows))
  }

  // ---- the rewrite ----

  function Conjuncts(e: Expr): seq<Expr> {
    if e.And? then Conjuncts(e.left) + Conjuncts(e.right) else [e]
  }

  function Semantic(es: seq<Expr>): (r: seq<Expr>)
    ensures forall e :: e in r <==> e in es && e.Means?
  {
    if es == [] then []
    else
      assert es == es[..|es| - 1] + [es[|es| - 1]];
      Semantic(es[..|es| - 1]) + if es[|es| - 1].Means? then [es[|es| - 1]] else []
  }

  function Free(es: seq<Expr>): (r: seq<Expr>)
    ensures forall e :: e in r <==> e in es && !e.Means?
  {
    if es == [] then []
    else
      assert es == es[..|es| - 1] + [es[|es| - 1]];
      Free(es[..|es| - 1]) + if es[|es| - 1].Means? then [] else [es[|es| - 1]]
  }

  datatype Spec = Spec(condition: string, recall: Option<Recall>)

  /** The predicates on one text, repeated ones too, as the query lists them. */
  datatype TextGroup = TextGroup(text: Expr, specs: seq<Spec>, indexed: bool)

  /** Each condition once, where it first appears. */
  function DistinctConditions(specs: seq<Spec>): (r: seq<string>)
    ensures forall c :: c in r <==> exists i :: 0 <= i < |specs| && specs[i].condition == c
  {
    if specs == [] then []
    else
      var n := |specs| - 1;
      var earlier := DistinctConditions(specs[..n]);
      assert specs == specs[..n] + [specs[n]];
      if specs[n].condition in earlier then earlier else earlier + [specs[n].condition]
  }

  predicate Fusable(g: TextGroup) {
    && !g.indexed
    && (forall i :: 0 <= i < |g.specs| ==> g.specs[i].recall.None?)
    && |DistinctConditions(g.specs)| > 1
  }

  function FindText(groups: seq<TextGroup>, text: Expr): (i: nat)
    ensures i <= |groups|
    ensures i < |groups| ==> groups[i].text == text
    ensures forall j :: 0 <= j < i ==> groups[j].text != text
  {
    if groups == [] then 0
    else
      var n := |groups| - 1;
      var i := FindText(groups[..n], text);
      if i < n || groups[n].text == text then i else |groups|
  }

  function WithCall(groups: seq<TextGroup>, call: Expr): seq<TextGroup>
    requires call.Means?
  {
    var i, spec := FindText(groups, call.text), Spec(call.condition, call.recall);
    if i < |groups| then groups[i := groups[i].(specs := groups[i].specs + [spec])]
    else groups + [TextGroup(call.text, [spec], false)]
  }

  ghost predicate AllMeans(calls: seq<Expr>) {
    forall e :: e in calls ==> e.Means?
  }

  ghost function Grouped(calls: seq<Expr>): seq<TextGroup>
    requires AllMeans(calls)
  {
    if calls == [] then []
    else
      assert calls == calls[..|calls| - 1] + [calls[|calls| - 1]];
      WithCall(Grouped(calls[..|calls| - 1]), calls[|calls| - 1])
  }

  method GroupByText(calls: seq<Expr>) returns (groups: seq<TextGroup>)
    requires AllMeans(calls)
    ensures groups == Grouped(calls)
  {
    groups := [];
    for k := 0 to |calls|
      invariant AllMeans(calls[..k]) && groups == Grouped(calls[..k])
    {
      assert calls[..k + 1][..k] == calls[..k] && calls[k] in calls;
      ghost var before := groups;
      var spec := Spec(calls[k].condition, calls[k].recall);
      var i := 0;
      while i < |groups| && groups[i].text != calls[k].text
        invariant 0 <= i <= |groups| && groups == before
        invariant forall j :: 0 <= j < i ==> groups[j].text != calls[k].text
      {
        i := i + 1;
      }
      assert i == FindText(before, calls[k].text);
      if i < |groups| {
        groups := groups[i := groups[i].(specs := groups[i].specs + [spec])];
      } else {
        groups := groups + [TextGroup(calls[k].text, [spec], false)];
      }
    }
    assert calls[..|calls|] == calls;
  }

  /** Whether an index covers the text decides where a group goes. */
  function Priced(groups: seq<TextGroup>, covers: Expr -> bool): (r: seq<TextGroup>)
    ensures |r| == |groups|
    ensures forall i :: 0 <= i < |r| ==> r[i] == groups[i].(indexed := covers(groups[i].text))
  {
    if groups == [] then []
    else
      var n := |groups| - 1;
      Priced(groups[..n], covers) + [groups[n].(indexed := covers(groups[n].text))]
  }

  function Pick(groups: seq<TextGroup>, indexed: bool): (r: seq<TextGroup>)
    ensures forall g :: g in r <==> g in groups && g.indexed == indexed
  {
    if groups == [] then []
    else
      var n := |groups| - 1;
      assert groups == groups[..n] + [groups[n]];
      Pick(groups[..n], indexed) + if groups[n].indexed == indexed then [groups[n]] else []
  }

  function Stack(plan: Plan, text: Expr, specs: seq<Spec>): Plan {
    if specs == [] then plan
    else
      var n := |specs| - 1;
      SemFilter(text, specs[n].condition, specs[n].recall, Stack(plan, text, specs[..n]))
  }

  function BranchColumns(id: nat, count: nat): seq<Expr> {
    seq(count, b requires 0 <= b < count => ClassColumn(id, b))
  }

  /** Every condition in one question, then a filter demanding all, then the columns dropped. */
  function Fuse(plan: Plan, g: TextGroup, id: nat): Plan
    requires Fusable(g)
  {
    var conditions := DistinctConditions(g.specs);
    var demand := Conjunction(BranchColumns(id, |conditions|));
    DropClasses(Filter(demand.value, Classify(g.text, conditions, id, plan)))
  }

  function Stage(plan: Plan, g: TextGroup, id: nat): Plan {
    if Fusable(g) then Fuse(plan, g, id) else Stack(plan, g.text, g.specs)
  }

  function Stages(plan: Plan, groups: seq<TextGroup>): Plan {
    if groups == [] then plan
    else
      var n := |groups| - 1;
      Stage(Stages(plan, groups[..n]), groups[n], n)
  }

  datatype Outcome = Untouched | Rejected | Planned(plan: Plan)

  ghost predicate SomeContains(es: seq<Expr>) {
    exists c :: c in es && ContainsMeans(c)
  }

  method AnyMarker(es: seq<Expr>) returns (found: bool)
    ensures found <==> SomeContains(es)
  {
    for i := 0 to |es|
      invariant forall j :: 0 <= j < i ==> !ContainsMeans(es[j])
    {
      if ContainsMeans(es[i]) {
        assert es[i] in es;
        return true;
      }
    }
    return false;
  }

  /** Builds from the inside out: earlier stages see the rows before later ones. */
  method BuildStages(plan: Plan, groups: seq<TextGroup>) returns (built: Plan)
    ensures built == Stages(plan, groups)
  {
    built := plan;
    for id := 0 to |groups|
      invariant built == Stages(plan, groups[..id])
    {
      assert groups[..id + 1][..id] == groups[..id];
      built := Stage(built, groups[id], id);
    }
    assert groups[..|groups|] == groups;
  }

  function FreeFirst(free: seq<Expr>): Plan {
    var all := Conjunction(free);
    if all.Some? then Filter(all.value, Input) else Input
  }

  /** The groups in the order their stages run: indexed ones innermost. */
  ghost function Ordered(clause: Expr, covers: Expr -> bool): seq<TextGroup> {
    var priced := Priced(Grouped(Semantic(Conjuncts(clause))), covers);
    Pick(priced, true) + Pick(priced, false)
  }

  ghost function Rewritten(clause: Expr, covers: Expr -> bool): Outcome {
    var semantic, free := Semantic(Conjuncts(clause)), Free(Conjuncts(clause));
    if semantic == [] then if ContainsMeans(clause) then Rejected else Untouched
    else if SomeContains(free) then Rejected
    else Planned(Stages(FreeFirst(free), Ordered(clause, covers)))
  }

  method RewriteWhere(clause: Expr, covers: Expr -> bool) returns (outcome: Outcome)
    ensures outcome == Rewritten(clause, covers)
  {
    var conjuncts := Conjuncts(clause);
    var semantic, free := Semantic(conjuncts), Free(conjuncts);
    if semantic == [] {
      return if ContainsMeans(clause) then Rejected else Untouched;
    }
    var misplaced := AnyMarker(free);
    if misplaced {
      return Rejected;
    }
    var groups := GroupByText(semantic);
    groups := Priced(groups, covers);
    var plan := BuildStages(FreeFirst(free), Pick(groups, true) + Pick(groups, false));
    outcome := Planned(plan);
  }

  // ---- the plan keeps the WHERE's rows ----

  ghost predicate TogetherMean(rows: seq<World>, p: Test, q: Test, both: Test) {
    forall i :: 0 <= i < |rows| ==> (Passes(both, rows[i]) <==> Passes(p, rows[i]) && Passes(q, rows[i]))
  }

  lemma {:induction false} WhereTwice(rows: seq<World>, p: Test, q: Test, both: Test)
    requires TogetherMean(rows, p, q, both)
    ensures Where(Where(rows, p), q) == Where(rows, both)
  {
    if rows != [] {
      var n := |rows| - 1;
      WhereTwice(rows[..n], p, q, both);
      var kept := Where(rows[..n], p);
      assert (kept + [rows[n]])[..|kept|] == kept;
      assert Where(rows, p) == if Passes(p, rows[n]) then kept + [rows[n]] else kept;
    }
  }

  lemma {:induction false} WhereSame(rows: seq<World>, p: Test, q: Test)
    requires forall i :: 0 <= i < |rows| ==> (Passes(p, rows[i]) <==> Passes(q, rows[i]))
    ensures Where(rows, p) == Where(rows, q)
  {
    if rows != [] {
      WhereSame(rows[..|rows| - 1], p, q);
    }
  }

  lemma {:induction false} WhereStaysBare(rows: seq<World>, p: Test)
    requires Bare(rows)
    ensures Bare(Where(rows, p))
  {
    if rows != [] {
      WhereStaysBare(rows[..|rows| - 1], p);
    }
  }

  lemma {:induction false} KeepsAll(rows: seq<World>, p: Test)
    requires forall i :: 0 <= i < |rows| ==> Passes(p, rows[i])
    ensures Where(rows, p) == rows
  {
    if rows != [] {
      var n := |rows| - 1;
      var earlier, last := rows[..n], rows[n];
      KeepsAll(earlier, p);
      assert Where(rows, p) == earlier + [last];
      assert rows == earlier + [last];
    }
  }

  lemma OneMoreSpec(text: Expr, specs: seq<Spec>, w: World)
    requires specs != []
    ensures
      var n := |specs| - 1;
      SpecsHold(text, specs, w) <==> SpecsHold(text, specs[..n], w) && ModelSaysYes(text, specs[n].condition, w)
  {
  }

  lemma {:induction false} StackIsWhere(plan: Plan, text: Expr, specs: seq<Spec>, rows: seq<World>)
    ensures Run(Stack(plan, text, specs), rows) == Where(Run(plan, rows), Stacked(text, specs))
  {
    var input := Run(plan, rows);
    if specs == [] {
      KeepsAll(input, Stacked(text, specs));
    } else {
      var n := |specs| - 1;
      StackIsWhere(plan, text, specs[..n], rows);
      forall i | 0 <= i < |input|
        ensures SpecsHold(text, specs, input[i]) <==> SpecsHold(text, specs[..n], input[i]) && ModelSaysYes(text, specs[n].condition, input[i])
      {
        OneMoreSpec(text, specs, input[i]);
      }
      WhereTwice(input, Stacked(text, specs[..n]), SaysYes(text, specs[n].condition), Stacked(text, specs));
    }
  }

  /** Labelling, filtering on the labels and dropping them again is a plain filter. */
  lemma {:induction false} FusedRows(rows: seq<World>, text: Expr, conditions: seq<string>, id: nat, demand: Test, p: Test)
    requires Bare(rows)
    requires forall i :: 0 <= i < |rows| ==> (Passes(demand, Labelled(rows[i], text, conditions, id)) <==> Passes(p, rows[i]))
    ensures DropAll(Where(LabelAll(rows, text, conditions, id), demand)) == Where(rows, p)
  {
    if rows != [] {
      var n := |rows| - 1;
      FusedRows(rows[..n], text, conditions, id, demand, p);
      var earlier, last := LabelAll(rows[..n], text, conditions, id), Labelled(rows[n], text, conditions, id);
      assert (earlier + [last])[..|earlier|] == earlier;
      var kept := Where(earlier, demand);
      assert (kept + [last])[..|kept|] == kept;
      assert last.(classes := NO_CLASSES) == rows[n];
      assert Where(earlier + [last], demand) == if Passes(demand, last) then kept + [last] else kept;
    }
  }

  /** Demanding every distinct condition's column is demanding every spec. */
  lemma DemandHolds(text: Expr, specs: seq<Spec>, id: nat, w: World)
    ensures
      var conditions := DistinctConditions(specs);
      AllTrue(BranchColumns(id, |conditions|), Labelled(w, text, conditions, id)) <==> SpecsHold(text, specs, w)
  {
    var conditions := DistinctConditions(specs);
    var columns, labelled := BranchColumns(id, |conditions|), Labelled(w, text, conditions, id);
    forall b | 0 <= b < |conditions|
      ensures Eval(columns[b], labelled) == MeansValue(Eval(text, w), conditions[b], w)
    {
    }
    if AllTrue(columns, labelled) {
      forall i | 0 <= i < |specs| ensures ModelSaysYes(text, specs[i].condition, w) {
        assert specs[i].condition in conditions;
        var b :| 0 <= b < |conditions| && conditions[b] == specs[i].condition;
        assert Eval(columns[b], labelled) == Bool(true);
      }
    }
    if SpecsHold(text, specs, w) {
      forall b | 0 <= b < |conditions| ensures Eval(columns[b], labelled) == Bool(true) {
        assert conditions[b] in conditions;
        var i :| 0 <= i < |specs| && specs[i].condition == conditions[b];
        assert ModelSaysYes(text, specs[i].condition, w);
      }
    }
  }

  lemma RunFuse(plan: Plan, g: TextGroup, id: nat, rows: seq<World>)
    requires Fusable(g)
    ensures
      var conditions := DistinctConditions(g.specs);
      var demand := True(Conjunction(BranchColumns(id, |conditions|)).value);
      Run(Fuse(plan, g, id), rows) == DropAll(Where(LabelAll(Run(plan, rows), g.text, conditions, id), demand))
  {
    var conditions := DistinctConditions(g.specs);
    var classify := Classify(g.text, conditions, id, plan);
    var filter := Filter(Conjunction(BranchColumns(id, |conditions|)).value, classify);
    assert Run(classify, rows) == LabelAll(Run(plan, rows), g.text, conditions, id);
    assert Run(filter, rows) == Where(Run(classify, rows), True(filter.test));
  }

  lemma FuseIsWhere(plan: Plan, g: TextGroup, id: nat, rows: seq<World>)
    requires Fusable(g) && Bare(Run(plan, rows))
    ensures Run(Fuse(plan, g, id), rows) == Where(Run(plan, rows), Stacked(g.text, g.specs))
  {
    var conditions := DistinctConditions(g.specs);
    var columns := BranchColumns(id, |conditions|);
    var demand := True(Conjunction(columns).value);
    var input := Run(plan, rows);
    forall i | 0 <= i < |input|
      ensures Passes(demand, Labelled(input[i], g.text, conditions, id)) <==> Passes(Stacked(g.text, g.specs), input[i])
    {
      DemandHolds(g.text, g.specs, id, input[i]);
      ConjunctionAdmits(columns, Labelled(input[i], g.text, conditions, id));
    }
    FusedRows(input, g.text, conditions, id, demand, Stacked(g.text, g.specs));
    RunFuse(plan, g, id, rows);
  }

  lemma StageIsWhere(plan: Plan, g: TextGroup, id: nat, rows: seq<World>)
    requires Bare(Run(plan, rows))
    ensures Run(Stage(plan, g, id), rows) == Where(Run(plan, rows), Stacked(g.text, g.specs))
  {
    if Fusable(g) {
      FuseIsWhere(plan, g, id, rows);
    } else {
      StackIsWhere(plan, g.text, g.specs, rows);
    }
  }

  lemma OneMoreGroup(groups: seq<TextGroup>, w: World)
    requires groups != []
    ensures
      var n := |groups| - 1;
      AllHold(groups, w) <==> AllHold(groups[..n], w) && SpecsHold(groups[n].text, groups[n].specs, w)
  {
  }

  lemma {:induction false} StagesAreWhere(plan: Plan, groups: seq<TextGroup>, rows: seq<World>)
    requires Bare(Run(plan, rows))
    ensures Run(Stages(plan, groups), rows) == Where(Run(plan, rows), Staged(groups))
  {
    var input := Run(plan, rows);
    if groups == [] {
      KeepsAll(input, Staged(groups));
    } else {
      hide Stage, SpecsHold;
      var n := |groups| - 1;
      StagesAreWhere(plan, groups[..n], rows);
      WhereStaysBare(input, Staged(groups[..n]));
      StageIsWhere(Stages(plan, groups[..n]), groups[n], n, rows);
      forall i | 0 <= i < |input|
        ensures AllHold(groups, input[i]) <==> AllHold(groups[..n], input[i]) && SpecsHold(groups[n].text, groups[n].specs, input[i])
      {
        OneMoreGroup(groups, input[i]);
      }
      WhereTwice(input, Staged(groups[..n]), Stacked(groups[n].text, groups[n].specs), Staged(groups));
    }
  }

  // ---- what the stages demand is what the WHERE says ----

  lemma WithCallHolds(groups: seq<TextGroup>, call: Expr, w: World)
    requires call.Means?
    ensures AllHold(WithCall(groups, call), w) <==> AllHold(groups, w) && Eval(call, w) == Bool(true)
  {
    var i, after, spec := FindText(groups, call.text), WithCall(groups, call), Spec(call.condition, call.recall);
    if i < |groups| {
      assert after[i].specs[..|after[i].specs| - 1] == groups[i].specs;
      OneMoreSpec(call.text, after[i].specs, w);
      if AllHold(after, w) {
        assert SpecsHold(after[i].text, after[i].specs, w);
        forall j | 0 <= j < |groups| ensures SpecsHold(groups[j].text, groups[j].specs, w) {
          assert j != i ==> after[j] == groups[j];
          assert SpecsHold(after[j].text, after[j].specs, w);
        }
      }
    } else {
      assert after[..|groups|] == groups;
      OneMoreGroup(after, w);
      OneMoreSpec(call.text, [spec], w);
    }
  }

  lemma {:induction false} GroupingLosesNothing(calls: seq<Expr>, w: World)
    requires AllMeans(calls)
    ensures AllHold(Grouped(calls), w) <==> AllTrue(calls, w)
  {
    if calls != [] {
      var n := |calls| - 1;
      assert calls == calls[..n] + [calls[n]];
      GroupingLosesNothing(calls[..n], w);
      WithCallHolds(Grouped(calls[..n]), calls[n], w);
    }
  }

  lemma HoldsByMembers(groups: seq<TextGroup>, w: World)
    ensures AllHold(groups, w) <==> forall g :: g in groups ==> SpecsHold(g.text, g.specs, w)
  {
    forall i | 0 <= i < |groups| ensures groups[i] in groups {
    }
  }

  /** Neither does ordering the groups by price. */
  lemma OrderingLosesNothing(groups: seq<TextGroup>, covers: Expr -> bool, w: World)
    ensures
      var priced := Priced(groups, covers);
      AllHold(Pick(priced, true) + Pick(priced, false), w) <==> AllHold(groups, w)
  {
    var priced := Priced(groups, covers);
    var ordered := Pick(priced, true) + Pick(priced, false);
    HoldsByMembers(priced, w);
    HoldsByMembers(ordered, w);
    assert forall g :: g in ordered <==> g in priced;
    assert AllHold(priced, w) <==> AllHold(groups, w) by {
      forall i | 0 <= i < |groups|
        ensures SpecsHold(priced[i].text, priced[i].specs, w) <==> SpecsHold(groups[i].text, groups[i].specs, w)
      {
      }
    }
  }

  predicate EachTrue(es: seq<Expr>, w: World) {
    forall c :: c in es ==> Eval(c, w) == Bool(true)
  }

  lemma {:induction false} ConjunctsHold(e: Expr, w: World)
    ensures Eval(e, w) == Bool(true) <==> EachTrue(Conjuncts(e), w)
  {
    if e.And? {
      ConjunctsHold(e.left, w);
      ConjunctsHold(e.right, w);
    } else {
      assert Conjuncts(e) == [e];
    }
  }

  lemma ListHolds(es: seq<Expr>, w: World)
    ensures AllTrue(es, w) <==> EachTrue(es, w)
  {
  }

  /** A row's fate is the same: kept by the free filter and every stage exactly when the whole
      WHERE is true of it. */
  lemma RowAgrees(clause: Expr, covers: Expr -> bool, w: World)
    ensures Eval(clause, w) == Bool(true) <==> AllTrue(Free(Conjuncts(clause)), w) && AllHold(Ordered(clause, covers), w)
  {
    var semantic, free := Semantic(Conjuncts(clause)), Free(Conjuncts(clause));
    ConjunctsHold(clause, w);
    ListHolds(semantic, w);
    ListHolds(free, w);
    GroupingLosesNothing(semantic, w);
    OrderingLosesNothing(Grouped(semantic), covers, w);
    assert EachTrue(Conjuncts(clause), w) <==> EachTrue(semantic, w) && EachTrue(free, w);
  }

  lemma FreeFirstIsWhere(free: seq<Expr>, rows: seq<World>)
    ensures Run(FreeFirst(free), rows) == Where(rows, Plainly(free))
  {
    forall i | 0 <= i < |rows| ensures Admits(Conjunction(free), rows[i]) <==> AllTrue(free, rows[i]) {
      ConjunctionAdmits(free, rows[i]);
    }
    var all := Conjunction(free);
    if all.Some? {
      assert Run(Filter(all.value, Input), rows) == Where(Run(Input, rows), True(all.value));
      WhereSame(rows, True(all.value), Plainly(free));
    } else {
      KeepsAll(rows, Plainly(free));
    }
  }

  lemma FreeThenStages(free: seq<Expr>, ordered: seq<TextGroup>, clause: Expr, rows: seq<World>)
    requires Bare(rows)
    requires TogetherMean(rows, Plainly(free), Staged(ordered), True(clause))
    ensures Run(Stages(FreeFirst(free), ordered), rows) == Where(rows, True(clause))
  {
    FreeFirstIsWhere(free, rows);
    WhereStaysBare(rows, Plainly(free));
    StagesAreWhere(FreeFirst(free), ordered, rows);
    WhereTwice(rows, Plainly(free), Staged(ordered), True(clause));
  }

  lemma RowsAgree(clause: Expr, covers: Expr -> bool, rows: seq<World>)
    ensures TogetherMean(rows, Plainly(Free(Conjuncts(clause))), Staged(Ordered(clause, covers)), True(clause))
  {
    hide Ordered, Conjuncts, Free, Eval, AllTrue, AllHold;
    forall i | 0 <= i < |rows|
      ensures Eval(clause, rows[i]) == Bool(true)
         <==> AllTrue(Free(Conjuncts(clause)), rows[i]) && AllHold(Ordered(clause, covers), rows[i])
    {
      RowAgrees(clause, covers, rows[i]);
    }
  }

  /** Whatever the order the predicates are written in: the plan's rows are the WHERE's rows,
      in the same order. */
  lemma PlanKeepsTheRows(clause: Expr, covers: Expr -> bool, rows: seq<World>)
    requires Bare(rows) && Rewritten(clause, covers).Planned?
    ensures Run(Rewritten(clause, covers).plan, rows) == Where(rows, True(clause))
  {
    RowsAgree(clause, covers, rows);
    FreeThenStages(Free(Conjuncts(clause)), Ordered(clause, covers), clause, rows);
  }

  // ---- where markers may stand ----

  lemma {:induction false} ConjunctsContain(e: Expr)
    ensures ContainsMeans(e) <==> SomeContains(Conjuncts(e))
  {
    if e.And? {
      ConjunctsContain(e.left);
      ConjunctsContain(e.right);
    } else {
      assert Conjuncts(e) == [e];
    }
  }

  /** A marker anywhere but at the top of a conjunct. */
  ghost predicate Misplaced(clause: Expr) {
    exists c :: c in Conjuncts(clause) && !c.Means? && ContainsMeans(c)
  }

  /** A WHERE is left alone exactly when it has no markers, and rejected exactly when one is
      misplaced. */
  lemma WhereOutcome(clause: Expr, covers: Expr -> bool)
    ensures Rewritten(clause, covers) == Untouched <==> !ContainsMeans(clause)
    ensures Rewritten(clause, covers) == Rejected <==> Misplaced(clause)
  {
    ConjunctsContain(clause);
    var conjuncts := Conjuncts(clause);
    var semantic, free := Semantic(conjuncts), Free(conjuncts);
    assert SomeContains(free) <==> Misplaced(clause);
    if semantic == [] {
      forall c | c in conjuncts ensures c in free {
        assert c.Means? ==> c in semantic;
      }
      assert SomeContains(conjuncts) <==> SomeContains(free);
    } else {
      assert semantic[0] in semantic && ContainsMeans(semantic[0]);
    }
  }
}

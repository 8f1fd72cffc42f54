/**
 The shape of a rewritten WHERE, read off the plan's own nodes from the bottom up: which node asks
 each `MEANS` conjunct, which ones carry `WITH RECALL`, and which stage runs before which.
 */
module MeansLayout {
  import opened Wrappers
  import opened SelectExpr
  import opened MeansRewrite

  // ---- what the WHERE lists ----

  predicate On(e: Expr, text: Expr) {
    e.Means? && e.text == text
  }

  /** The predicates on a text, as written. */
  function CallsOn(es: seq<Expr>, text: Expr): seq<Spec> {
    if es == [] then []
    else
      var last := es[|es| - 1];
      CallsOn(es[..|es| - 1], text) + if On(last, text) then [Spec(last.condition, last.recall)] else []
  }

  ghost predicate Occurs(es: seq<Expr>, text: Expr) {
    exists i :: 0 <= i < |es| && On(es[i], text)
  }

  ghost predicate OccursAt(es: seq<Expr>, i: int, a: Expr, b: Expr) {
    0 <= i < |es| && On(es[i], a) && forall j :: 0 <= j <= i ==> !On(es[j], b)
  }

  /** The first predicate on `a` is written before any on `b`. */
  ghost predicate Sooner(es: seq<Expr>, a: Expr, b: Expr) {
    exists i :: OccursAt(es, i, a, b)
  }

  /** An indexed text before an unindexed one, and otherwise as written. */
  ghost predicate GoesFirst(es: seq<Expr>, covers: Expr -> bool, a: Expr, b: Expr) {
    (covers(a) && !covers(b)) || (covers(a) == covers(b) && Sooner(es, a, b))
  }

  // ---- what the plan does, from the bottom up ----

  datatype Layer = Plain(test: Expr) | Sem(text: Expr, spec: Spec) | Ask(text: Expr, conditions: seq<string>, id: nat) | Drop

  function Layers(plan: Plan): seq<Layer> {
    match plan
    case Input => []
    case Filter(test, input) => Layers(input) + [Plain(test)]
    case SemFilter(text, condition, recall, input) => Layers(input) + [Sem(text, Spec(condition, recall))]
    case Classify(text, conditions, id, input) => Layers(input) + [Ask(text, conditions, id)]
    case DropClasses(input) => Layers(input) + [Drop]
  }

  predicate Reads(layer: Layer, text: Expr) {
    (layer.Sem? || layer.Ask?) && layer.text == text
  }

  /** The semantic filters on a text, in the order they run. */
  function FiltersOn(layers: seq<Layer>, text: Expr): seq<Spec> {
    if layers == [] then []
    else
      var last := layers[|layers| - 1];
      FiltersOn(layers[..|layers| - 1], text) + if last.Sem? && last.text == text then [last.spec] else []
  }

  /** The fused questions about a text. */
  function QuestionsOn(layers: seq<Layer>, text: Expr): seq<seq<string>> {
    if layers == [] then []
    else
      var last := layers[|layers| - 1];
      QuestionsOn(layers[..|layers| - 1], text) + if last.Ask? && last.text == text then [last.conditions] else []
  }

  // ---- what must hold of it ----

  ghost predicate TwoConditions(calls: seq<Spec>) {
    exists i, j :: 0 <= i < j < |calls| && calls[i].condition != calls[j].condition
  }

  /** Two different conditions on one text, none with a recall target, and no index on it. */
  ghost predicate AskedTogether(calls: seq<Spec>, covered: bool) {
    && !covered && (forall i :: 0 <= i < |calls| ==> calls[i].recall.None?)
    && TwoConditions(calls)
  }

  ghost predicate FirstAsks(calls: seq<Spec>, i: int) {
    0 <= i < |calls| && forall j :: 0 <= j < i ==> calls[j].condition != calls[i].condition
  }

  /** Each condition of the calls once, where it first appears: `at` says where. */
  ghost predicate EachOnceAt(calls: seq<Spec>, conditions: seq<string>, at: seq<int>) {
    && |at| == |conditions|
    && (forall b :: 0 <= b < |at| ==> FirstAsks(calls, at[b]) && calls[at[b]].condition == conditions[b])
    && (forall a, b :: 0 <= a < b < |at| ==> at[a] < at[b])
    && (forall i :: FirstAsks(calls, i) ==> i in at)
  }

  ghost predicate EachOnce(calls: seq<Spec>, conditions: seq<string>) {
    exists at :: EachOnceAt(calls, conditions, at)
  }

  /** Conditions asked together take one question and no filter; any others take the filters as
      written, each with the recall target it was written with, and no question. */
  ghost predicate TextIsServed(calls: seq<Spec>, covered: bool, filters: seq<Spec>, questions: seq<seq<string>>) {
    if AskedTogether(calls, covered) then filters == [] && |questions| == 1 && EachOnce(calls, questions[0])
    else filters == calls && questions == []
  }

  ghost predicate StagesInOrder(es: seq<Expr>, covers: Expr -> bool, layers: seq<Layer>) {
    forall i, j, a, b :: 0 <= i < j < |layers| && Reads(layers[i], a) && Reads(layers[j], b) && a != b ==>
      GoesFirst(es, covers, a, b)
  }

  /** A question is followed by a filter and the dropping of its columns. */
  predicate QuestionAt(layers: seq<Layer>, i: int) {
    0 <= i && i + 2 < |layers| && layers[i].Ask? && layers[i + 1].Plain? && layers[i + 2].Drop?
  }

  predicate HasFree(es: seq<Expr>) {
    exists i :: 0 <= i < |es| && !es[i].Means?
  }

  /** The only other filter is the free predicates', at the very bottom. */
  ghost predicate PlainAtBottom(es: seq<Expr>, layers: seq<Layer>) {
    && (HasFree(es) ==> layers != [] && layers[0].Plain?)
    && (forall i :: 0 <= i < |layers| && layers[i].Ask? ==> QuestionAt(layers, i))
    && (forall i :: 0 <= i < |layers| && layers[i].Plain? ==> (i == 0 && HasFree(es)) || (i > 0 && layers[i - 1].Ask?))
    && (forall i :: 0 <= i < |layers| && layers[i].Drop? ==> i > 1 && layers[i - 2].Ask?)
  }

  // ---- lists end to end ----

  lemma Regrouped(a: seq<Layer>, b: seq<Layer>, c: seq<Layer>)
    ensures (a + b) + c == a + (b + c)
  {
  }

  lemma {:induction false} OnBoth(a: seq<Layer>, b: seq<Layer>, text: Expr)
    ensures FiltersOn(a + b, text) == FiltersOn(a, text) + FiltersOn(b, text)
    ensures QuestionsOn(a + b, text) == QuestionsOn(a, text) + QuestionsOn(b, text)
  {
    if b == [] {
      assert a + b == a;
    } else {
      var n := |b| - 1;
      assert (a + b)[..|a + b| - 1] == a + b[..n];
      OnBoth(a, b[..n], text);
    }
  }

  // ---- the groups say what the WHERE lists ----

  lemma {:induction false} NoCalls(es: seq<Expr>, text: Expr)
    ensures CallsOn(es, text) == [] <==> !Occurs(es, text)
  {
    if es != [] {
      var n := |es| - 1;
      NoCalls(es[..n], text);
      if Occurs(es[..n], text) {
        var i :| 0 <= i < n && On(es[..n][i], text);
        assert On(es[i], text);
      }
      if On(es[n], text) {
        assert Occurs(es, text);
      }
      if Occurs(es, text) && !On(es[n], text) {
        var i :| 0 <= i < |es| && On(es[i], text);
        assert On(es[..n][i], text);
      }
    }
  }

  ghost predicate HasGroup(groups: seq<TextGroup>, text: Expr) {
    exists i :: 0 <= i < |groups| && groups[i].text == text
  }

  ghost predicate AsWritten(es: seq<Expr>, groups: seq<TextGroup>) {
    forall i, j :: 0 <= i < j < |groups| ==> Sooner(es, groups[i].text, groups[j].text)
  }

  ghost predicate GroupTells(es: seq<Expr>, g: TextGroup) {
    Occurs(es, g.text) && g.specs == CallsOn(es, g.text)
  }

  ghost predicate GroupsTell(es: seq<Expr>, groups: seq<TextGroup>) {
    && (forall i :: 0 <= i < |groups| ==> GroupTells(es, groups[i]))
    && AsWritten(es, groups)
    && (forall text :: Occurs(es, text) ==> HasGroup(groups, text))
  }

  lemma OneMoreOccurs(es: seq<Expr>, e: Expr, text: Expr)
    ensures Occurs(es + [e], text) <==> Occurs(es, text) || On(e, text)
    ensures CallsOn(es + [e], text) == CallsOn(es, text) + if On(e, text) then [Spec(e.condition, e.recall)] else []
  {
    var more := es + [e];
    assert more[..|es|] == es && more[|es|] == e;
    if Occurs(es, text) {
      var i :| 0 <= i < |es| && On(es[i], text);
      assert On(more[i], text);
    }
  }

  lemma OneMoreIsLater(es: seq<Expr>, e: Expr, a: Expr, b: Expr)
    requires Sooner(es, a, b) || (Occurs(es, a) && !Occurs(es, b))
    ensures Sooner(es + [e], a, b)
  {
    hide On;
    var more := es + [e];
    assert forall j :: 0 <= j < |es| ==> more[j] == es[j];
    var i :| 0 <= i < |es| && On(es[i], a) && forall j :: 0 <= j <= i ==> !On(es[j], b);
    assert OccursAt(more, i, a, b);
  }

  lemma NoneBeforeItself(es: seq<Expr>, text: Expr)
    ensures !Sooner(es, text, text)
  {
  }

  lemma OneMoreCall(es: seq<Expr>, groups: seq<TextGroup>, e: Expr)
    requires GroupsTell(es, groups) && e.Means?
    ensures GroupsTell(es + [e], WithCall(groups, e))
  {
    var more, after, at := es + [e], WithCall(groups, e), FindText(groups, e.text);
    hide Occurs, Sooner, CallsOn, FindText;
    NoCalls(es, e.text);
    if at == |groups| {
      assert !HasGroup(groups, e.text);
    }
    forall i | 0 <= i < |after| ensures GroupTells(more, after[i]) {
      OneMoreOccurs(es, e, after[i].text);
      assert i < |groups| ==> after[i].text == groups[i].text && GroupTells(es, groups[i]);
      if i < |groups| && after[i].text == e.text {
        NoneBeforeItself(es, e.text);
        assert i == at;
      }
    }
    forall i, j | 0 <= i < j < |after| ensures Sooner(more, after[i].text, after[j].text) {
      assert GroupTells(es, groups[i]) && after[i].text == groups[i].text;
      if j < |groups| {
        assert after[j].text == groups[j].text;
        assert Sooner(es, groups[i].text, groups[j].text);
      }
      OneMoreIsLater(es, e, after[i].text, after[j].text);
    }
    forall text | Occurs(more, text) ensures HasGroup(after, text) {
      OneMoreOccurs(es, e, text);
      if text == e.text {
        assert after[at].text == text;
      } else {
        var i :| 0 <= i < |groups| && groups[i].text == text;
        assert after[i].text == text;
      }
    }
  }

  lemma FreeCallsNothing(es: seq<Expr>, groups: seq<TextGroup>, e: Expr)
    requires GroupsTell(es, groups) && !e.Means?
    ensures GroupsTell(es + [e], groups)
  {
    hide Occurs, Sooner, CallsOn;
    forall i | 0 <= i < |groups| ensures GroupTells(es + [e], groups[i]) {
      assert GroupTells(es, groups[i]);
      OneMoreOccurs(es, e, groups[i].text);
    }
    forall i, j | 0 <= i < j < |groups| ensures Sooner(es + [e], groups[i].text, groups[j].text) {
      OneMoreIsLater(es, e, groups[i].text, groups[j].text);
    }
    forall text | Occurs(es + [e], text) ensures HasGroup(groups, text) {
      OneMoreOccurs(es, e, text);
    }
  }

  lemma {:induction false} GroupingTells(es: seq<Expr>)
    ensures GroupsTell(es, Grouped(Semantic(es)))
  {
    if es != [] {
      var n := |es| - 1;
      var before, e := es[..n], es[n];
      var groups := Grouped(Semantic(before));
      assert es == before + [e];
      GroupingTells(before);
      if e.Means? {
        var calls := Semantic(es);
        assert calls == Semantic(before) + [e] && calls[..|calls| - 1] == Semantic(before);
        assert Grouped(calls) == WithCall(groups, e);
        hide GroupsTell, WithCall;
        OneMoreCall(before, groups, e);
      } else {
        assert Semantic(es) == Semantic(before);
        hide GroupsTell;
        FreeCallsNothing(before, groups, e);
      }
    }
  }

  // ---- the order they run in ----

  lemma {:induction false} PickKeepsOrder(es: seq<Expr>, groups: seq<TextGroup>, indexed: bool)
    requires AsWritten(es, groups)
    ensures AsWritten(es, Pick(groups, indexed))
  {
    if groups != [] {
      hide Sooner;
      var n := |groups| - 1;
      var earlier := Pick(groups[..n], indexed);
      PickKeepsOrder(es, groups[..n], indexed);
      forall i | 0 <= i < |earlier| ensures Sooner(es, earlier[i].text, groups[n].text) {
        assert earlier[i] in earlier && earlier[i] in groups[..n];
        var k :| 0 <= k < n && groups[..n][k] == earlier[i];
        assert Sooner(es, groups[k].text, groups[n].text);
      }
    }
  }

  /** The groups as they run: each tells what the WHERE lists on its text, and every text has one. */
  ghost predicate RunOrder(es: seq<Expr>, covers: Expr -> bool, groups: seq<TextGroup>) {
    && (forall i :: 0 <= i < |groups| ==> GroupTells(es, groups[i]) && groups[i].indexed == covers(groups[i].text))
    && (forall i, j :: 0 <= i < j < |groups| ==> GoesFirst(es, covers, groups[i].text, groups[j].text))
    && (forall text :: Occurs(es, text) ==> HasGroup(groups, text))
  }

  lemma PricedTells(es: seq<Expr>, groups: seq<TextGroup>, covers: Expr -> bool)
    requires GroupsTell(es, groups)
    ensures GroupsTell(es, Priced(groups, covers))
  {
    hide Sooner, Occurs;
    var priced := Priced(groups, covers);
    assert forall i :: 0 <= i < |priced| ==> priced[i].text == groups[i].text && priced[i].specs == groups[i].specs;
    forall i | 0 <= i < |priced| ensures GroupTells(es, priced[i]) {
      assert GroupTells(es, groups[i]);
    }
    forall text | Occurs(es, text) ensures HasGroup(priced, text) {
      var i :| 0 <= i < |groups| && groups[i].text == text;
      assert priced[i].text == text;
    }
  }

  lemma PickIsPriced(groups: seq<TextGroup>, covers: Expr -> bool, indexed: bool, k: nat)
    requires k < |Pick(Priced(groups, covers), indexed)|
    ensures
      var g := Pick(Priced(groups, covers), indexed)[k];
      g.indexed == indexed == covers(g.text) && exists i :: 0 <= i < |groups| && Priced(groups, covers)[i] == g
  {
    var priced := Priced(groups, covers);
    var g := Pick(priced, indexed)[k];
    assert g in Pick(priced, indexed) && g in priced;
  }

  lemma CheapThenDear(es: seq<Expr>, covers: Expr -> bool, cheap: seq<TextGroup>, dear: seq<TextGroup>)
    requires AsWritten(es, cheap) && AsWritten(es, dear)
    requires forall i :: 0 <= i < |cheap| ==> GroupTells(es, cheap[i]) && cheap[i].indexed && covers(cheap[i].text)
    requires forall i :: 0 <= i < |dear| ==> GroupTells(es, dear[i]) && !dear[i].indexed && !covers(dear[i].text)
    requires forall text :: Occurs(es, text) ==> HasGroup(cheap + dear, text)
    ensures RunOrder(es, covers, cheap + dear)
  {
    hide Sooner, Occurs, GroupTells, HasGroup;
    var ordered := cheap + dear;
    forall i, j | 0 <= i < j < |ordered| ensures GoesFirst(es, covers, ordered[i].text, ordered[j].text) {
      if j < |cheap| {
        assert Sooner(es, cheap[i].text, cheap[j].text);
      } else if |cheap| <= i {
        assert Sooner(es, dear[i - |cheap|].text, dear[j - |cheap|].text);
      }
    }
  }

  lemma PickedHasGroup(groups: seq<TextGroup>, text: Expr)
    requires HasGroup(groups, text)
    ensures HasGroup(Pick(groups, true) + Pick(groups, false), text)
  {
    var i :| 0 <= i < |groups| && groups[i].text == text;
    var ordered := Pick(groups, true) + Pick(groups, false);
    assert groups[i] in groups && groups[i] in ordered;
  }

  lemma PickTells(es: seq<Expr>, groups: seq<TextGroup>, covers: Expr -> bool, indexed: bool, k: nat)
    requires GroupsTell(es, Priced(groups, covers)) && k < |Pick(Priced(groups, covers), indexed)|
    ensures
      var g := Pick(Priced(groups, covers), indexed)[k];
      GroupTells(es, g) && g.indexed == indexed == covers(g.text)
  {
    hide GroupTells, Sooner, Occurs, Pick;
    PickIsPriced(groups, covers, indexed, k);
  }

  lemma OrderedRuns(clause: Expr, covers: Expr -> bool)
    ensures RunOrder(Conjuncts(clause), covers, Ordered(clause, covers))
  {
    var es := Conjuncts(clause);
    var groups := Grouped(Semantic(es));
    var priced := Priced(groups, covers);
    var cheap, dear := Pick(priced, true), Pick(priced, false);
    GroupingTells(es);
    PricedTells(es, groups, covers);
    PickKeepsOrder(es, priced, true);
    PickKeepsOrder(es, priced, false);
    forall i | 0 <= i < |cheap| ensures GroupTells(es, cheap[i]) && cheap[i].indexed && covers(cheap[i].text) {
      PickTells(es, groups, covers, true, i);
    }
    forall i | 0 <= i < |dear| ensures GroupTells(es, dear[i]) && !dear[i].indexed && !covers(dear[i].text) {
      PickTells(es, groups, covers, false, i);
    }
    forall text | Occurs(es, text) ensures HasGroup(cheap + dear, text) {
      PickedHasGroup(priced, text);
    }
    assert Ordered(clause, covers) == cheap + dear;
    hide Ordered, Sooner, Occurs, GroupTells;
    CheapThenDear(es, covers, cheap, dear);
  }

  // ---- the layers of a stage ----

  function SemLayers(text: Expr, specs: seq<Spec>): seq<Layer> {
    if specs == [] then []
    else
      var n := |specs| - 1;
      SemLayers(text, specs[..n]) + [Sem(text, specs[n])]
  }

  function StageLayers(g: TextGroup, id: nat): seq<Layer> {
    if Fusable(g) then
      var conditions := DistinctConditions(g.specs);
      [Ask(g.text, conditions, id), Plain(Conjunction(BranchColumns(id, |conditions|)).value), Drop]
    else SemLayers(g.text, g.specs)
  }

  lemma {:induction false} StackAdds(plan: Plan, text: Expr, specs: seq<Spec>)
    ensures Layers(Stack(plan, text, specs)) == Layers(plan) + SemLayers(text, specs)
  {
    if specs != [] {
      StackAdds(plan, text, specs[..|specs| - 1]);
    }
  }

  lemma FuseAdds(plan: Plan, g: TextGroup, id: nat)
    requires Fusable(g)
    ensures Layers(Fuse(plan, g, id)) == Layers(plan) + StageLayers(g, id)
  {
    var conditions := DistinctConditions(g.specs);
    var classify := Classify(g.text, conditions, id, plan);
    var filter := Filter(Conjunction(BranchColumns(id, |conditions|)).value, classify);
    assert Layers(classify) == Layers(plan) + [Ask(g.text, conditions, id)];
    assert Layers(filter) == Layers(classify) + [Plain(filter.test)];
  }

  lemma StageAdds(plan: Plan, g: TextGroup, id: nat)
    ensures Layers(Stage(plan, g, id)) == Layers(plan) + StageLayers(g, id)
  {
    if Fusable(g) {
      FuseAdds(plan, g, id);
    } else {
      StackAdds(plan, g.text, g.specs);
    }
  }

  function Built(groups: seq<TextGroup>): seq<Layer> {
    if groups == [] then []
    else
      var n := |groups| - 1;
      Built(groups[..n]) + StageLayers(groups[n], n)
  }

  lemma OneMoreStage(plan: Plan, groups: seq<TextGroup>)
    requires groups != []
    ensures
      var n := |groups| - 1;
      && Stages(plan, groups) == Stage(Stages(plan, groups[..n]), groups[n], n)
      && Built(groups) == Built(groups[..n]) + StageLayers(groups[n], n)
  {
    hide Stage, StageLayers;
  }

  lemma {:induction false} StagesAdd(plan: Plan, groups: seq<TextGroup>)
    ensures Layers(Stages(plan, groups)) == Layers(plan) + Built(groups)
  {
    if groups == [] {
      assert Stages(plan, groups) == plan && Built(groups) == [];
    } else {
      hide *;
      var n := |groups| - 1;
      var below, built, top := Stages(plan, groups[..n]), Built(groups[..n]), StageLayers(groups[n], n);
      StagesAdd(plan, groups[..n]);
      StageAdds(below, groups[n], n);
      OneMoreStage(plan, groups);
      Regrouped(Layers(plan), built, top);
    }
  }

  lemma OneServes(layer: Layer, text: Expr)
    ensures FiltersOn([layer], text) == if layer.Sem? && layer.text == text then [layer.spec] else []
    ensures QuestionsOn([layer], text) == if layer.Ask? && layer.text == text then [layer.conditions] else []
  {
    assert [layer][..0] == [];
    assert FiltersOn([], text) == [] && QuestionsOn([], text) == [];
  }

  lemma {:induction false} SemsAre(text: Expr, specs: seq<Spec>)
    ensures |SemLayers(text, specs)| == |specs|
    ensures forall i :: 0 <= i < |specs| ==> SemLayers(text, specs)[i] == Sem(text, specs[i])
  {
    if specs != [] {
      SemsAre(text, specs[..|specs| - 1]);
    }
  }

  lemma {:induction false} SemsServe(text: Expr, specs: seq<Spec>, other: Expr)
    ensures FiltersOn(SemLayers(text, specs), other) == if other == text then specs else []
    ensures QuestionsOn(SemLayers(text, specs), other) == []
  {
    if specs == [] {
      assert FiltersOn([], other) == [] && QuestionsOn([], other) == [];
    } else {
      var n := |specs| - 1;
      var below, top := SemLayers(text, specs[..n]), Sem(text, specs[n]);
      assert SemLayers(text, specs) == below + [top];
      assert specs == specs[..n] + [specs[n]];
      hide *;
      SemsServe(text, specs[..n], other);
      OnBoth(below, [top], other);
      OneServes(top, other);
    }
  }

  lemma StageServes(g: TextGroup, id: nat, text: Expr)
    ensures FiltersOn(StageLayers(g, id), text) == if text == g.text && !Fusable(g) then g.specs else []
    ensures QuestionsOn(StageLayers(g, id), text) == if text == g.text && Fusable(g) then [DistinctConditions(g.specs)] else []
  {
    hide FiltersOn, QuestionsOn, Conjunction, BranchColumns, DistinctConditions;
    if Fusable(g) {
      var layers := StageLayers(g, id);
      var ask, demand := [layers[0]], [layers[1]];
      assert layers == ask + demand + [Drop];
      OnBoth(ask + demand, [Drop], text);
      OnBoth(ask, demand, text);
      OneServes(layers[0], text);
      OneServes(layers[1], text);
      OneServes(Drop, text);
    } else {
      SemsServe(g.text, g.specs, text);
    }
  }

  ghost predicate Serves(layers: seq<Layer>, filters: seq<Spec>, questions: seq<seq<string>>, text: Expr) {
    FiltersOn(layers, text) == filters && QuestionsOn(layers, text) == questions
  }

  lemma ServesBoth(a: seq<Layer>, b: seq<Layer>, text: Expr)
    ensures Serves(b, [], [], text) ==> Serves(a + b, FiltersOn(a, text), QuestionsOn(a, text), text)
    ensures Serves(a, [], [], text) ==> Serves(a + b, FiltersOn(b, text), QuestionsOn(b, text), text)
  {
    OnBoth(a, b, text);
  }

  lemma OthersAreNotServed(g: TextGroup, id: nat, text: Expr)
    requires text != g.text
    ensures Serves(StageLayers(g, id), [], [], text)
  {
    StageServes(g, id, text);
  }

  ghost predicate OneEach(groups: seq<TextGroup>) {
    forall i, j :: 0 <= i < j < |groups| ==> groups[i].text != groups[j].text
  }

  lemma {:induction false} NotBuilt(groups: seq<TextGroup>, text: Expr)
    requires forall i :: 0 <= i < |groups| ==> groups[i].text != text
    ensures Serves(Built(groups), [], [], text)
  {
    if groups != [] {
      hide StageLayers;
      var n := |groups| - 1;
      NotBuilt(groups[..n], text);
      OthersAreNotServed(groups[n], n, text);
      ServesBoth(Built(groups[..n]), StageLayers(groups[n], n), text);
    }
  }

  /** What the stages do about a text is what its own group's stage does. */
  lemma {:induction false} BuiltServes(groups: seq<TextGroup>, k: nat)
    requires k < |groups| && OneEach(groups)
    ensures
      var text, layers := groups[k].text, StageLayers(groups[k], k);
      Serves(Built(groups), FiltersOn(layers, text), QuestionsOn(layers, text), text)
  {
    hide StageLayers, FiltersOn, QuestionsOn;
    var n := |groups| - 1;
    if k == n {
      NotBuilt(groups[..n], groups[k].text);
    } else {
      BuiltServes(groups[..n], k);
      OthersAreNotServed(groups[n], n, groups[k].text);
    }
    ServesBoth(Built(groups[..n]), StageLayers(groups[n], n), groups[k].text);
  }

  // ---- which groups are asked together ----

  lemma RepeatedCondition(before: seq<Spec>, spec: Spec, earlier: seq<string>, at: seq<int>)
    requires EachOnceAt(before, earlier, at) && spec.condition in earlier
    ensures EachOnceAt(before + [spec], earlier, at)
  {
    var specs := before + [spec];
    assert forall i :: 0 <= i < |before| ==> specs[i] == before[i];
    var b :| 0 <= b < |earlier| && earlier[b] == spec.condition;
    assert FirstAsks(before, at[b]) && specs[at[b]].condition == spec.condition;
    assert !FirstAsks(specs, |before|);
    assert forall i :: i < |before| ==> (FirstAsks(specs, i) <==> FirstAsks(before, i));
  }

  lemma NewCondition(before: seq<Spec>, spec: Spec, earlier: seq<string>, at: seq<int>)
    requires EachOnceAt(before, earlier, at) && forall i :: 0 <= i < |before| ==> before[i].condition != spec.condition
    ensures EachOnceAt(before + [spec], earlier + [spec.condition], at + [|before|])
  {
    var specs, later := before + [spec], at + [|before|];
    assert forall i :: 0 <= i < |before| ==> specs[i] == before[i];
    assert FirstAsks(specs, |before|);
    assert forall i :: i < |before| ==> (FirstAsks(specs, i) <==> FirstAsks(before, i));
    assert forall b :: 0 <= b < |at| ==> FirstAsks(before, at[b]) && later[b] == at[b];
    forall i | FirstAsks(specs, i) ensures i in later {
      if i == |before| {
        assert later[|at|] == i;
      } else {
        assert i in at;
      }
    }
  }

  lemma {:induction false} DistinctIsEachOnce(specs: seq<Spec>)
    ensures EachOnce(specs, DistinctConditions(specs))
  {
    if specs == [] {
      assert EachOnceAt(specs, [], []);
    } else {
      hide EachOnceAt;
      var n := |specs| - 1;
      var before, earlier := specs[..n], DistinctConditions(specs[..n]);
      DistinctIsEachOnce(before);
      var at :| EachOnceAt(before, earlier, at);
      assert specs == before + [specs[n]];
      if specs[n].condition in earlier {
        RepeatedCondition(before, specs[n], earlier, at);
      } else {
        NewCondition(before, specs[n], earlier, at);
      }
    }
  }

  lemma TwoDistinct(specs: seq<Spec>)
    ensures |DistinctConditions(specs)| > 1 <==> TwoConditions(specs)
  {
    var conditions := DistinctConditions(specs);
    DistinctIsEachOnce(specs);
    hide DistinctConditions;
    if |conditions| > 1 {
      var at :| EachOnceAt(specs, conditions, at);
      assert FirstAsks(specs, at[1]) && specs[at[0]].condition != specs[at[1]].condition;
    }
    if TwoConditions(specs) {
      var i, j :| 0 <= i < j < |specs| && specs[i].condition != specs[j].condition;
      assert specs[i].condition in conditions && specs[j].condition in conditions;
    }
  }

  lemma FusedTogether(g: TextGroup)
    ensures Fusable(g) <==> AskedTogether(g.specs, g.indexed)
  {
    TwoDistinct(g.specs);
    hide DistinctConditions;
  }

  // ---- the free predicates ----

  lemma {:induction false} FreeIffAny(es: seq<Expr>)
    ensures HasFree(es) <==> Free(es) != []
  {
    if HasFree(es) {
      var i :| 0 <= i < |es| && !es[i].Means?;
      assert es[i] in Free(es);
    }
    if Free(es) != [] {
      assert Free(es)[0] in Free(es);
    }
  }

  function FreeLayers(free: seq<Expr>): seq<Layer> {
    if free == [] then [] else [Plain(Conjunction(free).value)]
  }

  lemma PlanLayers(clause: Expr, covers: Expr -> bool)
    requires Rewritten(clause, covers).Planned?
    ensures Layers(Rewritten(clause, covers).plan) == FreeLayers(Free(Conjuncts(clause))) + Built(Ordered(clause, covers))
  {
    var free, groups := Free(Conjuncts(clause)), Ordered(clause, covers);
    assert Rewritten(clause, covers).plan == Stages(FreeFirst(free), groups);
    hide Rewritten, Ordered, Stages, Built, Conjuncts, Free;
    StagesAdd(FreeFirst(free), groups);
    assert Layers(Input) == [];
    assert Layers(FreeFirst(free)) == FreeLayers(free);
  }

  /** The filter below every stage keeps exactly the rows all free predicates hold on. */
  lemma FreeFilterIsFree(clause: Expr, covers: Expr -> bool, w: World)
    requires Rewritten(clause, covers).Planned? && HasFree(Conjuncts(clause))
    ensures
      var es, layers := Conjuncts(clause), Layers(Rewritten(clause, covers).plan);
      && layers != [] && layers[0].Plain?
      && (Eval(layers[0].test, w) == Bool(true) <==> forall e :: e in es && !e.Means? ==> Eval(e, w) == Bool(true))
  {
    var free := Free(Conjuncts(clause));
    FreeIffAny(Conjuncts(clause));
    PlanLayers(clause, covers);
    ConjunctionAdmits(free, w);
    ListHolds(free, w);
  }

  // ---- the main results ----

  lemma ServesText(es: seq<Expr>, covers: Expr -> bool, groups: seq<TextGroup>, text: Expr)
    requires RunOrder(es, covers, groups)
    ensures TextIsServed(CallsOn(es, text), covers(text), FiltersOn(Built(groups), text), QuestionsOn(Built(groups), text))
  {
    forall i, j | 0 <= i < j < |groups| ensures groups[i].text != groups[j].text {
      NoneBeforeItself(es, groups[i].text);
      assert GoesFirst(es, covers, groups[i].text, groups[j].text);
    }
    if HasGroup(groups, text) {
      var k :| 0 <= k < |groups| && groups[k].text == text;
      assert GroupTells(es, groups[k]);
      BuiltServes(groups, k);
      StageServes(groups[k], k, text);
      FusedTogether(groups[k]);
      DistinctIsEachOnce(groups[k].specs);
    } else {
      NoCalls(es, text);
      NotBuilt(groups, text);
    }
  }

  lemma FreeServesNothing(free: seq<Expr>, built: seq<Layer>, text: Expr)
    ensures FiltersOn(FreeLayers(free) + built, text) == FiltersOn(built, text)
    ensures QuestionsOn(FreeLayers(free) + built, text) == QuestionsOn(built, text)
  {
    var base := FreeLayers(free);
    OnBoth(base, built, text);
    assert FiltersOn([], text) == [] && QuestionsOn([], text) == [];
    if base != [] {
      OneServes(base[0], text);
      assert base == [base[0]];
    }
  }

  /** What every text of a WHERE gets: one question for all its conditions when they are asked
      together, and otherwise a filter for each predicate, with its recall target. */
  lemma EveryTextIsServed(clause: Expr, covers: Expr -> bool, text: Expr)
    requires Rewritten(clause, covers).Planned?
    ensures
      var es, layers := Conjuncts(clause), Layers(Rewritten(clause, covers).plan);
      TextIsServed(CallsOn(es, text), covers(text), FiltersOn(layers, text), QuestionsOn(layers, text))
  {
    var es, groups := Conjuncts(clause), Ordered(clause, covers);
    PlanLayers(clause, covers);
    OrderedRuns(clause, covers);
    hide *;
    ServesText(es, covers, groups, text);
    FreeServesNothing(Free(es), Built(groups), text);
  }

  lemma StageReads(g: TextGroup, id: nat, i: nat, text: Expr)
    requires i < |StageLayers(g, id)| && Reads(StageLayers(g, id)[i], text)
    ensures text == g.text
  {
    if !Fusable(g) {
      SemsAre(g.text, g.specs);
    }
  }

  lemma {:induction false} BuiltReads(groups: seq<TextGroup>, i: nat, text: Expr)
    requires i < |Built(groups)| && Reads(Built(groups)[i], text)
    ensures HasGroup(groups, text)
  {
    hide Reads, StageLayers;
    var n := |groups| - 1;
    var below := Built(groups[..n]);
    if i < |below| {
      BuiltReads(groups[..n], i, text);
      var k :| 0 <= k < n && groups[..n][k].text == text;
      assert groups[k].text == text;
    } else {
      StageReads(groups[n], n, i - |below|, text);
    }
  }

  lemma {:induction false} BuiltInOrder(es: seq<Expr>, covers: Expr -> bool, groups: seq<TextGroup>)
    requires forall i, j :: 0 <= i < j < |groups| ==> GoesFirst(es, covers, groups[i].text, groups[j].text)
    ensures StagesInOrder(es, covers, Built(groups))
  {
    hide Reads, StageLayers, GoesFirst;
    if groups != [] {
      var n := |groups| - 1;
      var below, layers := Built(groups[..n]), Built(groups);
      BuiltInOrder(es, covers, groups[..n]);
      forall i, j, a, b | 0 <= i < j < |layers| && Reads(layers[i], a) && Reads(layers[j], b) && a != b
        ensures GoesFirst(es, covers, a, b)
      {
        if j < |below| {
          assert layers[i] == below[i] && layers[j] == below[j];
        } else {
          StageReads(groups[n], n, j - |below|, b);
          if i < |below| {
            BuiltReads(groups[..n], i, a);
          } else {
            StageReads(groups[n], n, i - |below|, a);
          }
        }
      }
    }
  }

  predicate WellStaged(layers: seq<Layer>) {
    && (forall i :: 0 <= i < |layers| && layers[i].Ask? ==> QuestionAt(layers, i))
    && (forall i :: 0 <= i < |layers| && layers[i].Plain? ==> i > 0 && layers[i - 1].Ask?)
    && (forall i :: 0 <= i < |layers| && layers[i].Drop? ==> i > 1 && layers[i - 2].Ask?)
  }

  lemma StageIsWell(g: TextGroup, id: nat)
    ensures WellStaged(StageLayers(g, id))
  {
    hide Conjunction, BranchColumns, DistinctConditions;
    if Fusable(g) {
      assert |StageLayers(g, id)| == 3;
    } else {
      SemsAre(g.text, g.specs);
    }
    hide Fusable;
  }

  lemma WellOnTop(below: seq<Layer>, top: seq<Layer>)
    requires WellStaged(below) && WellStaged(top)
    ensures WellStaged(below + top)
  {
    var layers, n := below + top, |below|;
    forall i | 0 <= i < |layers| && layers[i].Ask? ensures QuestionAt(layers, i) {
      assert if i < n then QuestionAt(below, i) else QuestionAt(top, i - n);
    }
  }

  lemma {:induction false} BuiltIsWell(groups: seq<TextGroup>)
    ensures WellStaged(Built(groups))
  {
    if groups == [] {
      assert Built(groups) == [];
    } else {
      hide StageLayers, WellStaged;
      var n := |groups| - 1;
      BuiltIsWell(groups[..n]);
      StageIsWell(groups[n], n);
      WellOnTop(Built(groups[..n]), StageLayers(groups[n], n));
    }
  }

  lemma FreeAtBottom(es: seq<Expr>, covers: Expr -> bool, free: seq<Expr>, built: seq<Layer>)
    requires StagesInOrder(es, covers, built) && WellStaged(built) && (HasFree(es) <==> free != [])
    ensures StagesInOrder(es, covers, FreeLayers(free) + built) && PlainAtBottom(es, FreeLayers(free) + built)
  {
    hide GoesFirst, HasFree;
    var layers, n := FreeLayers(free) + built, |FreeLayers(free)|;
    assert forall i :: n <= i < |layers| ==> layers[i] == built[i - n];
    forall i, j, a, b | 0 <= i < j < |layers| && Reads(layers[i], a) && Reads(layers[j], b) && a != b
      ensures GoesFirst(es, covers, a, b)
    {
      assert layers[i] == built[i - n] && layers[j] == built[j - n];
    }
    forall i | 0 <= i < |layers| && layers[i].Ask? ensures QuestionAt(layers, i) {
      assert QuestionAt(built, i - n);
    }
  }

  /** Indexed texts before unindexed ones and otherwise as written; the free predicates below them
      all; and no filter or projection but those of a fused question. */
  lemma StagesRunInOrder(clause: Expr, covers: Expr -> bool)
    requires Rewritten(clause, covers).Planned?
    ensures
      var es, layers := Conjuncts(clause), Layers(Rewritten(clause, covers).plan);
      StagesInOrder(es, covers, layers) && PlainAtBottom(es, layers)
  {
    var es, groups := Conjuncts(clause), Ordered(clause, covers);
    PlanLayers(clause, covers);
    OrderedRuns(clause, covers);
    FreeIffAny(es);
    BuiltIsWell(groups);
    BuiltInOrder(es, covers, groups) by {
      assert RunOrder(es, covers, groups);
    }
    hide *;
    FreeAtBottom(es, covers, Free(es), Built(groups));
  }

  /** Splitting a WHERE into conjuncts undoes joining them, in the order they were joined. */
  lemma {:induction false} SplitUndoesJoin(es: seq<Expr>)
    requires es != [] && forall i :: 0 <= i < |es| ==> !es[i].And?
    ensures Conjuncts(Conjunction(es).value) == es
  {
    var n := |es| - 1;
    assert es == es[..n] + [es[n]];
    assert Conjuncts(es[n]) == [es[n]];
    if n > 0 {
      SplitUndoesJoin(es[..n]);
      assert Conjunction(es[..n]).Some?;
    } else {
      assert Conjunction(es[..n]).None?;
    }
  }
}

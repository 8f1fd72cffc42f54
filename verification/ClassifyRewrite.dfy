/**
 Turning the `MEANS` markers of a SELECT list into columns of classify nodes. Markers over one
 text and guard share a node; the branches of a CASE are guarded by the plain conditions before
 them. The rewritten expression means what the query wrote, on every row.
 */
module ClassifyRewrite {
  import opened Wrappers
  import opened SelectExpr

  /** One classify node: its text, the rows it may ask about, its conditions in order. */
  datatype Group = Group(text: Expr, guard: Option<Expr>, conditions: seq<string>)

  // ---- the builder ----

  function FindGroup(groups: seq<Group>, text: Expr, guard: Option<Expr>): (i: nat)
    ensures i <= |groups|
    ensures i < |groups| ==> groups[i].text == text && groups[i].guard == guard
    ensures forall j :: 0 <= j < i ==> !(groups[j].text == text && groups[j].guard == guard)
  {
    if groups == [] then 0
    else
      var n := |groups| - 1;
      var i := FindGroup(groups[..n], text, guard);
      if i < n || (groups[n].text == text && groups[n].guard == guard) then i else |groups|
  }

  function FindCondition(conditions: seq<string>, condition: string): (i: nat)
    ensures i <= |conditions|
    ensures i < |conditions| ==> conditions[i] == condition
    ensures forall j :: 0 <= j < i ==> conditions[j] != condition
  {
    if conditions == [] then 0
    else
      var n := |conditions| - 1;
      var i := FindCondition(conditions[..n], condition);
      if i < n || conditions[n] == condition then i else |conditions|
  }

  function WithGroup(groups: seq<Group>, text: Expr, guard: Option<Expr>): seq<Group> {
    if FindGroup(groups, text, guard) < |groups| then groups else groups + [Group(text, guard, [])]
  }

  function WithCondition(group: Group, condition: string): Group {
    if FindCondition(group.conditions, condition) < |group.conditions| then group
    else group.(conditions := group.conditions + [condition])
  }

  /** The builder after one more marker. */
  function Registered(groups: seq<Group>, text: Expr, condition: string, guard: Option<Expr>): seq<Group> {
    var g := FindGroup(groups, text, guard);
    var all := WithGroup(groups, text, guard);
    all[g := WithCondition(all[g], condition)]
  }

  /** The column that carries the marker's verdict. */
  function ColumnFor(groups: seq<Group>, text: Expr, condition: string, guard: Option<Expr>): Expr {
    var g := FindGroup(groups, text, guard);
    ClassColumn(g, FindCondition(WithGroup(groups, text, guard)[g].conditions, condition))
  }

  // ---- the traversal ----

  datatype Rewritten<T> = Done(value: T, groups: seq<Group>) | Rejected

  /** The conditions before the first one that asks the model, as guards. */
  function Leading(bs: Branches): seq<Expr> {
    if bs.NoMore? || ContainsMeans(bs.condition) then []
    else [IsNotTrue(bs.condition)] + Leading(bs.rest)
  }

  function CaseGuard(base: Maybe, bs: Branches, outer: Option<Expr>): Option<Expr> {
    if base.Present? then outer
    else
      var leading := Conjunction(Leading(bs));
      if outer.Some? && leading.Some? then Some(And(outer.value, leading.value))
      else if outer.Some? then outer
      else leading
  }

  function Rewrite(e: Expr, guard: Option<Expr>, groups: seq<Group>): Rewritten<Expr> {
    match e
    case Means(text, condition, recall) =>
      if recall.Some? then Rejected
      else Done(ColumnFor(groups, text, condition, guard), Registered(groups, text, condition, guard))
    case Case(base, branches, otherwise) =>
      var b := RewriteMaybe(base, guard, groups);
      if b.Rejected? then Rejected
      else
        var bs := RewriteBranches(branches, guard, CaseGuard(base, branches, guard), b.groups);
        if bs.Rejected? then Rejected
        else
          var o := RewriteMaybe(otherwise, guard, bs.groups);
          if o.Rejected? then Rejected else Done(Case(b.value, bs.value, o.value), o.groups)
    case IsNotTrue(x) =>
      var r := Rewrite(x, guard, groups);
      if r.Rejected? then Rejected else Done(IsNotTrue(r.value), r.groups)
    case And(left, right) =>
      var l := Rewrite(left, guard, groups);
      if l.Rejected? then Rejected
      else
        var r := Rewrite(right, guard, l.groups);
        if r.Rejected? then Rejected else Done(And(l.value, r.value), r.groups)
    case Call(f, args) =>
      var r := RewriteAll(args, guard, groups);
      if r.Rejected? then Rejected else Done(Call(f, r.value), r.groups)
    case _ => Done(e, groups)
  }

  function RewriteMaybe(m: Maybe, guard: Option<Expr>, groups: seq<Group>): Rewritten<Maybe> {
    match m
    case Absent => Done(Absent, groups)
    case Present(e) =>
      var r := Rewrite(e, guard, groups);
      if r.Rejected? then Rejected else Done(Present(r.value), r.groups)
  }

  function RewriteAll(es: Exprs, guard: Option<Expr>, groups: seq<Group>): Rewritten<Exprs> {
    match es
    case Nil => Done(Nil, groups)
    case Cons(e, rest) =>
      var r := Rewrite(e, guard, groups);
      if r.Rejected? then Rejected
      else
        var rs := RewriteAll(rest, guard, r.groups);
        if rs.Rejected? then Rejected else Done(Cons(r.value, rs.value), rs.groups)
  }

  /** Only a WHEN that asks the model gets the branch guard; results keep the outer one. */
  function RewriteBranches(
    bs: Branches, guard: Option<Expr>, branchGuard: Option<Expr>, groups: seq<Group>): Rewritten<Branches>
  {
    match bs
    case NoMore => Done(NoMore, groups)
    case When(condition, result, rest) =>
      var c := Rewrite(condition, if ContainsMeans(condition) then branchGuard else guard, groups);
      if c.Rejected? then Rejected
      else
        var r := Rewrite(result, guard, c.groups);
        if r.Rejected? then Rejected
        else
          var rs := RewriteBranches(rest, guard, branchGuard, r.groups);
          if rs.Rejected? then Rejected else Done(When(c.value, r.value, rs.value), rs.groups)
  }

  // ---- the builder only grows ----

  ghost predicate Grown(before: Group, after: Group) {
    before.text == after.text && before.guard == after.guard && before.conditions <= after.conditions
  }

  ghost predicate Extends(before: seq<Group>, after: seq<Group>) {
    |before| <= |after| && forall i :: 0 <= i < |before| ==> Grown(before[i], after[i])
  }

  ghost predicate Distinct(conditions: seq<string>) {
    forall i, j :: 0 <= i < j < |conditions| ==> conditions[i] != conditions[j]
  }

  /** Markers share what they can: no two nodes have one text and guard, no node asks twice. */
  ghost predicate Fused(groups: seq<Group>) {
    && (forall i, j :: 0 <= i < j < |groups| ==> !(groups[i].text == groups[j].text && groups[i].guard == groups[j].guard))
    && (forall i :: 0 <= i < |groups| ==> Distinct(groups[i].conditions))
  }

  ghost predicate GrowsTo(before: seq<Group>, after: seq<Group>) {
    Extends(before, after) && (Fused(before) ==> Fused(after))
  }

  lemma RegisterExtends(groups: seq<Group>, text: Expr, condition: string, guard: Option<Expr>)
    ensures GrowsTo(groups, Registered(groups, text, condition, guard))
  {
    var g := FindGroup(groups, text, guard);
    var all := WithGroup(groups, text, guard);
    var after := Registered(groups, text, condition, guard);
    assert Extends(groups, after) by {
      assert forall i :: 0 <= i < |groups| && i != g ==> after[i] == groups[i];
    }
    if Fused(groups) {
      assert Distinct(all[g].conditions) && Distinct(after[g].conditions);
      forall i | 0 <= i < |after| && i != g ensures Distinct(after[i].conditions) {
        assert after[i] == groups[i];
      }
    }
  }

  lemma {:induction false} RewriteExtends(e: Expr, guard: Option<Expr>, groups: seq<Group>)
    requires Rewrite(e, guard, groups).Done?
    ensures GrowsTo(groups, Rewrite(e, guard, groups).groups)
  {
    match e
    case Means(text, condition, _) => RegisterExtends(groups, text, condition, guard);
    case Case(base, branches, otherwise) =>
      var b := RewriteMaybe(base, guard, groups);
      var bs := RewriteBranches(branches, guard, CaseGuard(base, branches, guard), b.groups);
      MaybeExtends(base, guard, groups);
      BranchesExtend(branches, guard, CaseGuard(base, branches, guard), b.groups);
      MaybeExtends(otherwise, guard, bs.groups);
    case IsNotTrue(x) => RewriteExtends(x, guard, groups);
    case And(l, r) =>
      RewriteExtends(l, guard, groups);
      RewriteExtends(r, guard, Rewrite(l, guard, groups).groups);
    case Call(_, args) => AllExtend(args, guard, groups);
    case _ =>
  }

  lemma {:induction false} MaybeExtends(m: Maybe, guard: Option<Expr>, groups: seq<Group>)
    requires RewriteMaybe(m, guard, groups).Done?
    ensures GrowsTo(groups, RewriteMaybe(m, guard, groups).groups)
  {
    if m.Present? {
      RewriteExtends(m.expr, guard, groups);
    }
  }

  lemma {:induction false} AllExtend(es: Exprs, guard: Option<Expr>, groups: seq<Group>)
    requires RewriteAll(es, guard, groups).Done?
    ensures GrowsTo(groups, RewriteAll(es, guard, groups).groups)
  {
    if es.Cons? {
      RewriteExtends(es.head, guard, groups);
      AllExtend(es.tail, guard, Rewrite(es.head, guard, groups).groups);
    }
  }

  lemma {:induction false} BranchesExtend(bs: Branches, guard: Option<Expr>, branchGuard: Option<Expr>, groups: seq<Group>)
    requires RewriteBranches(bs, guard, branchGuard, groups).Done?
    ensures GrowsTo(groups, RewriteBranches(bs, guard, branchGuard, groups).groups)
  {
    if bs.When? {
      var whenGuard := if ContainsMeans(bs.condition) then branchGuard else guard;
      var c := Rewrite(bs.condition, whenGuard, groups);
      var r := Rewrite(bs.result, guard, c.groups);
      RewriteExtends(bs.condition, whenGuard, groups);
      RewriteExtends(bs.result, guard, c.groups);
      BranchesExtend(bs.rest, guard, branchGuard, r.groups);
    }
  }

  // ---- what a classify column holds ----

  function ColumnValue(groups: seq<Group>, g: nat, b: nat, w: World): Value {
    if g < |groups| && b < |groups[g].conditions| then
      if Admits(groups[g].guard, w) then MeansValue(Eval(groups[g].text, w), groups[g].conditions[b], w)
      else Bool(false)
    else Null
  }

  /** The row as the rewritten projection sees it, above the nodes the builder stacked. */
  function Above(groups: seq<Group>, w: World): World {
    w.(classes := (g: nat, b: nat) => ColumnValue(groups, g, b, w))
  }

  /** A column handed out early answers its marker in every later builder. */
  lemma ColumnAnswersMarker(
    groups: seq<Group>, final: seq<Group>, text: Expr, condition: string, guard: Option<Expr>, w: World)
    requires Extends(Registered(groups, text, condition, guard), final) && Admits(guard, w)
    ensures Eval(ColumnFor(groups, text, condition, guard), Above(final, w)) == MeansValue(Eval(text, w), condition, w)
  {
    var g := FindGroup(groups, text, guard);
    var b := ColumnFor(groups, text, condition, guard).branch;
    var after := Registered(groups, text, condition, guard);
    assert after[g].conditions[b] == condition;
    assert Grown(after[g], final[g]);
  }

  // ---- guards ----

  /** An earlier plain branch has already won the row. */
  predicate LeadingTaken(bs: Branches, w: World) {
    bs.When? && !ContainsMeans(bs.condition) && (Eval(bs.condition, w) == Bool(true) || LeadingTaken(bs.rest, w))
  }

  lemma AllTrueSplits(first: Expr, rest: seq<Expr>, w: World)
    ensures AllTrue([first] + rest, w) <==> Eval(first, w) == Bool(true) && AllTrue(rest, w)
  {
    var all := [first] + rest;
    hide Eval;
    assert all[0] == first && forall i :: 0 <= i < |rest| ==> all[i + 1] == rest[i];
    if AllTrue(all, w) {
      forall i | 0 <= i < |rest| ensures Eval(rest[i], w) == Bool(true) {
        assert Eval(all[i + 1], w) == Bool(true);
      }
    }
  }

  lemma NothingToAdmit(w: World)
    ensures AllTrue([], w)
  {
  }

  lemma {:induction false} LeadingAdmits(bs: Branches, w: World)
    ensures AllTrue(Leading(bs), w) <==> !LeadingTaken(bs, w)
  {
    hide AllTrue;
    if bs.When? && !ContainsMeans(bs.condition) {
      LeadingAdmits(bs.rest, w);
      AllTrueSplits(IsNotTrue(bs.condition), Leading(bs.rest), w);
    } else {
      NothingToAdmit(w);
    }
  }

  /** A row the CASE's guard turns away, though the CASE reaches it, is one that an earlier
      plain branch has claimed. */
  lemma GatedRowsAreClaimed(base: Maybe, bs: Branches, outer: Option<Expr>, w: World)
    requires Admits(outer, w)
    ensures Admits(CaseGuard(base, bs, outer), w) <==> base.Present? || !LeadingTaken(bs, w)
  {
    ConjunctionAdmits(Leading(bs), w);
    LeadingAdmits(bs, w);
  }

  // ---- meaning is preserved ----

  lemma ExtendsTrans(a: seq<Group>, b: seq<Group>, c: seq<Group>)
    requires Extends(a, b) && Extends(b, c)
    ensures Extends(a, c)
  {
    forall i | 0 <= i < |a| ensures Grown(a[i], c[i]) {
      assert Grown(a[i], b[i]) && Grown(b[i], c[i]);
    }
  }

  /** Under a guard that admits the row, rewriting keeps an expression's value, in the builder
      it leaves and in every later one. */
  lemma {:induction false} RewriteKeepsValue(e: Expr, guard: Option<Expr>, groups: seq<Group>, final: seq<Group>, w: World)
    requires Plain(e) && Admits(guard, w) && Rewrite(e, guard, groups).Done?
    requires Extends(Rewrite(e, guard, groups).groups, final)
    ensures Eval(Rewrite(e, guard, groups).value, Above(final, w)) == Eval(e, w)
    decreases e, 1
  {
    match e
    case Means(text, condition, _) => ColumnAnswersMarker(groups, final, text, condition, guard, w);
    case Case(_, _, _) => CaseKeepsValue(e, guard, groups, final, w);
    case IsNotTrue(x) => RewriteKeepsValue(x, guard, groups, final, w);
    case And(l, r) =>
      var left := Rewrite(l, guard, groups);
      RewriteExtends(r, guard, left.groups);
      ExtendsTrans(left.groups, Rewrite(r, guard, left.groups).groups, final);
      RewriteKeepsValue(l, guard, groups, final, w);
      RewriteKeepsValue(r, guard, left.groups, final, w);
    case Call(_, args) => AllKeepValues(args, guard, groups, final, w);
    case _ =>
  }

  lemma {:induction false} CaseKeepsValue(e: Expr, guard: Option<Expr>, groups: seq<Group>, final: seq<Group>, w: World)
    requires e.Case? && Plain(e) && Admits(guard, w) && Rewrite(e, guard, groups).Done?
    requires Extends(Rewrite(e, guard, groups).groups, final)
    ensures Eval(Rewrite(e, guard, groups).value, Above(final, w)) == Eval(e, w)
    decreases e, 0
  {
    var Case(base, bs, otherwise) := e;
    var branchGuard := CaseGuard(base, bs, guard);
    var b := RewriteMaybe(base, guard, groups);
    var rs := RewriteBranches(bs, guard, branchGuard, b.groups);
    var o := RewriteMaybe(otherwise, guard, rs.groups);
    MaybeExtends(otherwise, guard, rs.groups);
    ExtendsTrans(rs.groups, o.groups, final);
    BranchesExtend(bs, guard, branchGuard, b.groups);
    ExtendsTrans(b.groups, rs.groups, final);
    GatedRowsAreClaimed(base, bs, guard, w);
    MaybeKeepsValue(base, guard, groups, final, w);
    BranchesKeepValues(bs, EvalMaybe(base, w), base.Present?, guard, branchGuard, b.groups, final, w);
    MaybeKeepsValue(otherwise, guard, rs.groups, final, w);
  }

  lemma {:induction false} MaybeKeepsValue(m: Maybe, guard: Option<Expr>, groups: seq<Group>, final: seq<Group>, w: World)
    requires MaybePlain(m) && Admits(guard, w) && RewriteMaybe(m, guard, groups).Done?
    requires Extends(RewriteMaybe(m, guard, groups).groups, final)
    ensures EvalMaybe(RewriteMaybe(m, guard, groups).value, Above(final, w)) == EvalMaybe(m, w)
    ensures RewriteMaybe(m, guard, groups).value.Present? == m.Present?
  {
    if m.Present? {
      RewriteKeepsValue(m.expr, guard, groups, final, w);
    }
  }

  lemma {:induction false} AllKeepValues(es: Exprs, guard: Option<Expr>, groups: seq<Group>, final: seq<Group>, w: World)
    requires AllPlain(es) && Admits(guard, w) && RewriteAll(es, guard, groups).Done?
    requires Extends(RewriteAll(es, guard, groups).groups, final)
    ensures EvalAll(RewriteAll(es, guard, groups).value, Above(final, w)) == EvalAll(es, w)
  {
    if es.Cons? {
      var r := Rewrite(es.head, guard, groups);
      AllExtend(es.tail, guard, r.groups);
      ExtendsTrans(r.groups, RewriteAll(es.tail, guard, r.groups).groups, final);
      RewriteKeepsValue(es.head, guard, groups, final, w);
      AllKeepValues(es.tail, guard, r.groups, final, w);
    }
  }

  /** Branches keep their values too, even where the branch guard turns the row away: then the
      winning branch comes before any gated one is looked at. */
  lemma {:induction false} BranchesKeepValues(
    bs: Branches, base: Value, hasBase: bool, guard: Option<Expr>, branchGuard: Option<Expr>,
    groups: seq<Group>, final: seq<Group>, w: World)
    requires BranchesPlain(bs) && Admits(guard, w) && RewriteBranches(bs, guard, branchGuard, groups).Done?
    requires Admits(branchGuard, w) || (!hasBase && LeadingTaken(bs, w))
    requires Extends(RewriteBranches(bs, guard, branchGuard, groups).groups, final)
    ensures EvalBranches(RewriteBranches(bs, guard, branchGuard, groups).value, base, hasBase, Above(final, w))
         == EvalBranches(bs, base, hasBase, w)
  {
    if bs.When? {
      var whenGuard := if ContainsMeans(bs.condition) then branchGuard else guard;
      var c := Rewrite(bs.condition, whenGuard, groups);
      var r := Rewrite(bs.result, guard, c.groups);
      var rs := RewriteBranches(bs.rest, guard, branchGuard, r.groups);
      BranchesExtend(bs.rest, guard, branchGuard, r.groups);
      ExtendsTrans(r.groups, rs.groups, final);
      RewriteExtends(bs.result, guard, c.groups);
      ExtendsTrans(c.groups, r.groups, final);
      RewriteKeepsValue(bs.condition, whenGuard, groups, final, w);
      RewriteKeepsValue(bs.result, guard, c.groups, final, w);
      if !Matches(Eval(bs.condition, w), base, hasBase, w) {
        BranchesKeepValues(bs.rest, base, hasBase, guard, branchGuard, r.groups, final, w);
      }
    }
  }

  // ---- which rewrites are rejected, and what they leave ----

  /** A rewrite is rejected exactly when a marker carries WITH RECALL; otherwise no marker is
      left, and an expression without any is untouched. */
  ghost predicate Outcome<T>(value: T, contains: bool, hasRecall: bool, groups: seq<Group>, r: Rewritten<T>, left: bool) {
    && (r.Rejected? <==> hasRecall)
    && (r.Done? ==> !left && (!contains ==> r.value == value && r.groups == groups))
  }

  lemma {:induction false} RewriteOutcome(e: Expr, guard: Option<Expr>, groups: seq<Group>)
    ensures
      var r := Rewrite(e, guard, groups);
      Outcome(e, ContainsMeans(e), HasRecall(e), groups, r, r.Done? && ContainsMeans(r.value))
  {
    match e
    case Case(base, branches, otherwise) =>
      var branchGuard := CaseGuard(base, branches, guard);
      MaybeOutcome(base, guard, groups);
      var b := RewriteMaybe(base, guard, groups);
      if b.Done? {
        BranchesOutcome(branches, guard, branchGuard, b.groups);
        var bs := RewriteBranches(branches, guard, branchGuard, b.groups);
        if bs.Done? {
          MaybeOutcome(otherwise, guard, bs.groups);
        }
      }
    case IsNotTrue(x) => RewriteOutcome(x, guard, groups);
    case And(l, r) =>
      RewriteOutcome(l, guard, groups);
      if Rewrite(l, guard, groups).Done? {
        RewriteOutcome(r, guard, Rewrite(l, guard, groups).groups);
      }
    case Call(_, args) => AllOutcome(args, guard, groups);
    case _ =>
  }

  lemma {:induction false} MaybeOutcome(m: Maybe, guard: Option<Expr>, groups: seq<Group>)
    ensures
      var r := RewriteMaybe(m, guard, groups);
      Outcome(m, MaybeContains(m), MaybeHasRecall(m), groups, r, r.Done? && MaybeContains(r.value))
  {
    if m.Present? {
      RewriteOutcome(m.expr, guard, groups);
    }
  }

  lemma {:induction false} AllOutcome(es: Exprs, guard: Option<Expr>, groups: seq<Group>)
    ensures
      var r := RewriteAll(es, guard, groups);
      Outcome(es, AnyContains(es), AnyHasRecall(es), groups, r, r.Done? && AnyContains(r.value))
  {
    if es.Cons? {
      RewriteOutcome(es.head, guard, groups);
      if Rewrite(es.head, guard, groups).Done? {
        AllOutcome(es.tail, guard, Rewrite(es.head, guard, groups).groups);
      }
    }
  }

  lemma {:induction false} BranchesOutcome(bs: Branches, guard: Option<Expr>, branchGuard: Option<Expr>, groups: seq<Group>)
    ensures
      var r := RewriteBranches(bs, guard, branchGuard, groups);
      Outcome(bs, BranchesContain(bs), BranchesHaveRecall(bs), groups, r, r.Done? && BranchesContain(r.value))
  {
    if bs.When? {
      var whenGuard := if ContainsMeans(bs.condition) then branchGuard else guard;
      RewriteOutcome(bs.condition, whenGuard, groups);
      var c := Rewrite(bs.condition, whenGuard, groups);
      if c.Done? {
        RewriteOutcome(bs.result, guard, c.groups);
        var r := Rewrite(bs.result, guard, c.groups);
        if r.Done? {
          BranchesOutcome(bs.rest, guard, branchGuard, r.groups);
        }
      }
    }
  }

  // ---- the projection ----

  /** The rewriter's input and output for a whole SELECT list. */
  function RewriteProjection(exprs: Exprs): Rewritten<Exprs> {
    RewriteAll(exprs, None, [])
  }

  /** Any SELECT list: it is rejected exactly when a marker carries WITH RECALL, and otherwise
      means the same on every row, has no markers left, and asks nothing twice. */
  lemma ProjectionKeepsItsMeaning(exprs: Exprs)
    requires AllPlain(exprs)
    ensures RewriteProjection(exprs).Rejected? <==> AnyHasRecall(exprs)
    ensures
      var r := RewriteProjection(exprs);
      r.Done? ==>
        && (forall w :: EvalAll(r.value, Above(r.groups, w)) == EvalAll(exprs, w))
        && !AnyContains(r.value) && Fused(r.groups)
        && (!AnyContains(exprs) ==> r.value == exprs && r.groups == [])
  {
    AllOutcome(exprs, None, []);
    var r := RewriteProjection(exprs);
    if r.Done? {
      AllExtend(exprs, None, []);
      forall w: World ensures EvalAll(r.value, Above(r.groups, w)) == EvalAll(exprs, w) {
        AllKeepValues(exprs, None, [], r.groups, w);
      }
    }
  }
}

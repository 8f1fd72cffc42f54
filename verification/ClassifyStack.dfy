/**
 The classify nodes as a plan stacks them: each reads the rows of the one below and appends its
 columns. Its text and guard are the query's own expressions, so what lies below does not matter.
 */
module ClassifyStack {
  import opened Wrappers
  import opened SelectExpr
  import opened ClassifyRewrite

  /** The columns node `id` appends to a row. */
  function NodeColumn(group: Group, b: nat, row: World): Value {
    if b >= |group.conditions| then Null
    else if Admits(group.guard, row) then MeansValue(Eval(group.text, row), group.conditions[b], row)
    else Bool(false)
  }

  /** A row of the input once the first `n` nodes have seen it. */
  function Stacked(groups: seq<Group>, n: nat, row: World): World
    requires n <= |groups|
  {
    if n == 0 then row
    else
      var below := Stacked(groups, n - 1, row);
      below.(classes := (g: nat, b: nat) => if g == n - 1 then NodeColumn(groups[n - 1], b, below) else below.classes(g, b))
  }

  /** A guard is the query's own, and asks the model nothing. */
  predicate GuardPlain(guard: Option<Expr>) {
    guard.Some? ==> Plain(guard.value) && !ContainsMeans(guard.value)
  }

  ghost predicate PlainGroups(groups: seq<Group>) {
    forall i :: 0 <= i < |groups| ==> Plain(groups[i].text) && GuardPlain(groups[i].guard)
  }

  /** A row of a table has no class columns. */
  ghost predicate Bare(row: World) {
    forall g: nat, b: nat :: row.classes(g, b) == Null
  }

  lemma {:induction false} StackedOnlyAddsClasses(groups: seq<Group>, n: nat, row: World)
    requires n <= |groups|
    ensures Stacked(groups, n, row) == row.(classes := Stacked(groups, n, row).classes)
  {
    if n > 0 {
      StackedOnlyAddsClasses(groups, n - 1, row);
    }
  }

  lemma NodeIgnoresBelow(group: Group, b: nat, row: World, classes: (nat, nat) -> Value)
    requires Plain(group.text) && GuardPlain(group.guard)
    ensures NodeColumn(group, b, row.(classes := classes)) == NodeColumn(group, b, row)
  {
    SameValue(group.text, row, classes);
    if group.guard.Some? {
      SameValue(group.guard.value, row, classes);
    }
  }

  lemma NodeIsColumn(groups: seq<Group>, g: nat, b: nat, row: World)
    requires g < |groups|
    ensures NodeColumn(groups[g], b, row) == ColumnValue(groups, g, b, row)
  {
  }

  /** Stacking is the same as computing every column from the table's own row. */
  lemma {:induction false} StackedColumns(groups: seq<Group>, n: nat, row: World, g: nat, b: nat)
    requires n <= |groups| && PlainGroups(groups) && Bare(row)
    ensures Stacked(groups, n, row).classes(g, b) == if g < n then ColumnValue(groups, g, b, row) else Null
  {
    hide NodeColumn, ColumnValue, Plain;
    if n > 0 {
      StackedColumns(groups, n - 1, row, g, b);
      StackedOnlyAddsClasses(groups, n - 1, row);
      NodeIgnoresBelow(groups[n - 1], b, row, Stacked(groups, n - 1, row).classes);
      NodeIsColumn(groups, n - 1, b, row);
    }
  }

  // ---- the rewriter only ever hands nodes the query's own expressions ----

  lemma {:induction false} ConjunctionPlain(es: seq<Expr>)
    requires forall i :: 0 <= i < |es| ==> Plain(es[i]) && !ContainsMeans(es[i])
    ensures GuardPlain(Conjunction(es))
  {
    if es != [] {
      ConjunctionPlain(es[..|es| - 1]);
    }
  }

  lemma {:induction false} LeadingPlain(bs: Branches)
    requires BranchesPlain(bs)
    ensures forall i :: 0 <= i < |Leading(bs)| ==> Plain(Leading(bs)[i]) && !ContainsMeans(Leading(bs)[i])
  {
    if bs.When? && !ContainsMeans(bs.condition) {
      LeadingPlain(bs.rest);
    }
  }

  lemma CaseGuardPlain(base: Maybe, bs: Branches, outer: Option<Expr>)
    requires BranchesPlain(bs) && GuardPlain(outer)
    ensures GuardPlain(CaseGuard(base, bs, outer))
  {
    LeadingPlain(bs);
    ConjunctionPlain(Leading(bs));
  }

  lemma RegisterStaysPlain(groups: seq<Group>, text: Expr, condition: string, guard: Option<Expr>)
    requires PlainGroups(groups) && Plain(text) && GuardPlain(guard)
    ensures PlainGroups(Registered(groups, text, condition, guard))
  {
  }

  lemma {:induction false} RewriteStaysPlain(e: Expr, guard: Option<Expr>, groups: seq<Group>)
    requires Plain(e) && GuardPlain(guard) && PlainGroups(groups) && Rewrite(e, guard, groups).Done?
    ensures PlainGroups(Rewrite(e, guard, groups).groups)
  {
    match e
    case Means(text, condition, _) => RegisterStaysPlain(groups, text, condition, guard);
    case Case(base, branches, otherwise) =>
      var branchGuard := CaseGuard(base, branches, guard);
      CaseGuardPlain(base, branches, guard);
      MaybeStaysPlain(base, guard, groups);
      var b := RewriteMaybe(base, guard, groups);
      BranchesStayPlain(branches, guard, branchGuard, b.groups);
      MaybeStaysPlain(otherwise, guard, RewriteBranches(branches, guard, branchGuard, b.groups).groups);
    case IsNotTrue(x) => RewriteStaysPlain(x, guard, groups);
    case And(l, r) =>
      RewriteStaysPlain(l, guard, groups);
      RewriteStaysPlain(r, guard, Rewrite(l, guard, groups).groups);
    case Call(_, args) => AllStayPlain(args, guard, groups);
    case _ =>
  }

  lemma {:induction false} MaybeStaysPlain(m: Maybe, guard: Option<Expr>, groups: seq<Group>)
    requires MaybePlain(m) && GuardPlain(guard) && PlainGroups(groups) && RewriteMaybe(m, guard, groups).Done?
    ensures PlainGroups(RewriteMaybe(m, guard, groups).groups)
  {
    if m.Present? {
      RewriteStaysPlain(m.expr, guard, groups);
    }
  }

  lemma {:induction false} AllStayPlain(es: Exprs, guard: Option<Expr>, groups: seq<Group>)
    requires AllPlain(es) && GuardPlain(guard) && PlainGroups(groups) && RewriteAll(es, guard, groups).Done?
    ensures PlainGroups(RewriteAll(es, guard, groups).groups)
  {
    if es.Cons? {
      RewriteStaysPlain(es.head, guard, groups);
      AllStayPlain(es.tail, guard, Rewrite(es.head, guard, groups).groups);
    }
  }

  lemma {:induction false} BranchesStayPlain(bs: Branches, guard: Option<Expr>, branchGuard: Option<Expr>, groups: seq<Group>)
    requires BranchesPlain(bs) && GuardPlain(guard) && GuardPlain(branchGuard) && PlainGroups(groups)
    requires RewriteBranches(bs, guard, branchGuard, groups).Done?
    ensures PlainGroups(RewriteBranches(bs, guard, branchGuard, groups).groups)
  {
    if bs.When? {
      var whenGuard := if ContainsMeans(bs.condition) then branchGuard else guard;
      var c := Rewrite(bs.condition, whenGuard, groups);
      var r := Rewrite(bs.result, guard, c.groups);
      RewriteStaysPlain(bs.condition, whenGuard, groups);
      RewriteStaysPlain(bs.result, guard, c.groups);
      BranchesStayPlain(bs.rest, guard, branchGuard, r.groups);
    }
  }

  /** The rewritten list over the stacked nodes means what the query wrote, on every row. */
  lemma StackedPlanKeepsItsMeaning(exprs: Exprs, row: World)
    requires AllPlain(exprs) && RewriteProjection(exprs).Done? && Bare(row)
    ensures
      var r := RewriteProjection(exprs);
      EvalAll(r.value, Stacked(r.groups, |r.groups|, row)) == EvalAll(exprs, row)
  {
    var r := RewriteProjection(exprs);
    AllStayPlain(exprs, None, []);
    ProjectionKeepsItsMeaning(exprs);
    var n, above := |r.groups|, Above(r.groups, row);
    StackedOnlyAddsClasses(r.groups, n, row);
    var stacked := Stacked(r.groups, n, row);
    forall g: nat, b: nat ensures above.classes(g, b) == stacked.classes(g, b) {
      StackedColumns(r.groups, n, row, g, b);
    }
    SameValues(r.value, above, stacked.classes);
    assert above.(classes := stacked.classes) == stacked;
  }
}

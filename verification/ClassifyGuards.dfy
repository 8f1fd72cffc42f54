/**
 What guarding is for: a row that a plain branch of a CASE has claimed is not put to the model for any
 later branch's condition, however deep the markers in it stand.
 */
module ClassifyGuards {
  import opened Wrappers
  import opened SelectExpr
  import opened ClassifyRewrite

  // ---- which columns an expression reads ----

  predicate ReadsColumn(e: Expr, g: nat, b: nat) {
    match e
    case ClassColumn(group, branch) => group == g && branch == b
    case Means(text, _, _) => ReadsColumn(text, g, b)
    case Case(base, branches, otherwise) => MaybeReads(base, g, b) || BranchesRead(branches, g, b) || MaybeReads(otherwise, g, b)
    case IsNotTrue(x) => ReadsColumn(x, g, b)
    case And(l, r) => ReadsColumn(l, g, b) || ReadsColumn(r, g, b)
    case Call(_, args) => AnyReads(args, g, b)
    case _ => false
  }

  predicate AnyReads(es: Exprs, g: nat, b: nat) {
    es.Cons? && (ReadsColumn(es.head, g, b) || AnyReads(es.tail, g, b))
  }

  predicate MaybeReads(m: Maybe, g: nat, b: nat) {
    m.Present? && ReadsColumn(m.expr, g, b)
  }

  predicate BranchesRead(bs: Branches, g: nat, b: nat) {
    bs.When? && (ReadsColumn(bs.condition, g, b) || ReadsColumn(bs.result, g, b) || BranchesRead(bs.rest, g, b))
  }

  /** The node's guard turns the row away, so its text is not put to the model. */
  ghost predicate TurnedAway(groups: seq<Group>, g: nat, w: World) {
    g < |groups| && !Admits(groups[g].guard, w)
  }

  lemma StaysTurnedAway(before: seq<Group>, after: seq<Group>, g: nat, w: World)
    requires TurnedAway(before, g, w) && Extends(before, after)
    ensures TurnedAway(after, g, w)
  {
    assert Grown(before[g], after[g]);
  }

  /** An outer guard that turns a row away turns it away from every branch too. */
  lemma OuterTurnsAway(base: Maybe, bs: Branches, outer: Option<Expr>, w: World)
    requires !Admits(outer, w)
    ensures !Admits(CaseGuard(base, bs, outer), w)
  {
  }

  // ---- rewriting under a guard that turns the row away ----

  lemma {:induction false} MarkersAreTurnedAway(
    e: Expr, guard: Option<Expr>, groups: seq<Group>, final: seq<Group>, w: World, g: nat, b: nat)
    requires Plain(e) && !Admits(guard, w) && Rewrite(e, guard, groups).Done?
    requires Extends(Rewrite(e, guard, groups).groups, final) && ReadsColumn(Rewrite(e, guard, groups).value, g, b)
    ensures TurnedAway(final, g, w)
    decreases e, 1
  {
    match e
    case Means(text, condition, _) =>
      assert TurnedAway(Registered(groups, text, condition, guard), g, w);
      StaysTurnedAway(Registered(groups, text, condition, guard), final, g, w);
    case Case(_, _, _) => CaseIsTurnedAway(e, guard, groups, final, w, g, b);
    case IsNotTrue(x) => MarkersAreTurnedAway(x, guard, groups, final, w, g, b);
    case And(l, r) =>
      var left := Rewrite(l, guard, groups);
      RewriteExtends(r, guard, left.groups);
      ExtendsTrans(left.groups, Rewrite(r, guard, left.groups).groups, final);
      if ReadsColumn(left.value, g, b) {
        MarkersAreTurnedAway(l, guard, groups, final, w, g, b);
      } else {
        MarkersAreTurnedAway(r, guard, left.groups, final, w, g, b);
      }
    case Call(_, args) => AllAreTurnedAway(args, guard, groups, final, w, g, b);
    case _ =>
  }

  lemma {:induction false} CaseIsTurnedAway(
    e: Expr, guard: Option<Expr>, groups: seq<Group>, final: seq<Group>, w: World, g: nat, b: nat)
    requires e.Case? && Plain(e) && !Admits(guard, w) && Rewrite(e, guard, groups).Done?
    requires Extends(Rewrite(e, guard, groups).groups, final) && ReadsColumn(Rewrite(e, guard, groups).value, g, b)
    ensures TurnedAway(final, g, w)
    decreases e, 0
  {
    var Case(base, bs, otherwise) := e;
    var branchGuard := CaseGuard(base, bs, guard);
    var first := RewriteMaybe(base, guard, groups);
    var whens := RewriteBranches(bs, guard, branchGuard, first.groups);
    var last := RewriteMaybe(otherwise, guard, whens.groups);
    MaybeExtends(otherwise, guard, whens.groups);
    ExtendsTrans(whens.groups, last.groups, final);
    BranchesExtend(bs, guard, branchGuard, first.groups);
    ExtendsTrans(first.groups, whens.groups, final);
    OuterTurnsAway(base, bs, guard, w);
    if MaybeReads(first.value, g, b) {
      MaybeIsTurnedAway(base, guard, groups, final, w, g, b);
    } else if BranchesRead(whens.value, g, b) {
      BranchesAreTurnedAway(bs, guard, branchGuard, first.groups, final, w, g, b);
    } else {
      MaybeIsTurnedAway(otherwise, guard, whens.groups, final, w, g, b);
    }
  }

  lemma {:induction false} MaybeIsTurnedAway(
    m: Maybe, guard: Option<Expr>, groups: seq<Group>, final: seq<Group>, w: World, g: nat, b: nat)
    requires MaybePlain(m) && !Admits(guard, w) && RewriteMaybe(m, guard, groups).Done?
    requires Extends(RewriteMaybe(m, guard, groups).groups, final) && MaybeReads(RewriteMaybe(m, guard, groups).value, g, b)
    ensures TurnedAway(final, g, w)
  {
    MarkersAreTurnedAway(m.expr, guard, groups, final, w, g, b);
  }

  lemma {:induction false} AllAreTurnedAway(
    es: Exprs, guard: Option<Expr>, groups: seq<Group>, final: seq<Group>, w: World, g: nat, b: nat)
    requires AllPlain(es) && !Admits(guard, w) && RewriteAll(es, guard, groups).Done?
    requires Extends(RewriteAll(es, guard, groups).groups, final) && AnyReads(RewriteAll(es, guard, groups).value, g, b)
    ensures TurnedAway(final, g, w)
  {
    var first := Rewrite(es.head, guard, groups);
    AllExtend(es.tail, guard, first.groups);
    ExtendsTrans(first.groups, RewriteAll(es.tail, guard, first.groups).groups, final);
    if ReadsColumn(first.value, g, b) {
      MarkersAreTurnedAway(es.head, guard, groups, final, w, g, b);
    } else {
      AllAreTurnedAway(es.tail, guard, first.groups, final, w, g, b);
    }
  }

  lemma {:induction false} BranchesAreTurnedAway(
    bs: Branches, guard: Option<Expr>, branchGuard: Option<Expr>, groups: seq<Group>, final: seq<Group>, w: World, g: nat, b: nat)
    requires BranchesPlain(bs) && !Admits(guard, w) && !Admits(branchGuard, w) && RewriteBranches(bs, guard, branchGuard, groups).Done?
    requires Extends(RewriteBranches(bs, guard, branchGuard, groups).groups, final)
    requires BranchesRead(RewriteBranches(bs, guard, branchGuard, groups).value, g, b)
    ensures TurnedAway(final, g, w)
  {
    var whenGuard := if ContainsMeans(bs.condition) then branchGuard else guard;
    var c := Rewrite(bs.condition, whenGuard, groups);
    var r := Rewrite(bs.result, guard, c.groups);
    var rest := RewriteBranches(bs.rest, guard, branchGuard, r.groups);
    BranchesExtend(bs.rest, guard, branchGuard, r.groups);
    ExtendsTrans(r.groups, rest.groups, final);
    RewriteExtends(bs.result, guard, c.groups);
    ExtendsTrans(c.groups, r.groups, final);
    if ReadsColumn(c.value, g, b) {
      MarkersAreTurnedAway(bs.condition, whenGuard, groups, final, w, g, b);
    } else if ReadsColumn(r.value, g, b) {
      MarkersAreTurnedAway(bs.result, guard, c.groups, final, w, g, b);
    } else {
      BranchesAreTurnedAway(bs.rest, guard, branchGuard, r.groups, final, w, g, b);
    }
  }

  // ---- a claimed row ----

  /** Some WHEN's condition reads the column. */
  predicate SomeWhenReads(bs: Branches, g: nat, b: nat) {
    bs.When? && (ReadsColumn(bs.condition, g, b) || SomeWhenReads(bs.rest, g, b))
  }

  lemma {:induction false} PlainReadsNothing(e: Expr, g: nat, b: nat)
    requires Plain(e)
    ensures !ReadsColumn(e, g, b)
  {
    match e
    case Means(text, _, _) => PlainReadsNothing(text, g, b);
    case Case(base, branches, otherwise) =>
      if base.Present? {
        PlainReadsNothing(base.expr, g, b);
      }
      PlainBranchesRead(branches, g, b);
      if otherwise.Present? {
        PlainReadsNothing(otherwise.expr, g, b);
      }
    case IsNotTrue(x) => PlainReadsNothing(x, g, b);
    case And(l, r) =>
      PlainReadsNothing(l, g, b);
      PlainReadsNothing(r, g, b);
    case Call(_, args) => PlainListReads(args, g, b);
    case _ =>
  }

  lemma {:induction false} PlainBranchesRead(bs: Branches, g: nat, b: nat)
    requires BranchesPlain(bs)
    ensures !BranchesRead(bs, g, b)
  {
    if bs.When? {
      PlainReadsNothing(bs.condition, g, b);
      PlainReadsNothing(bs.result, g, b);
      PlainBranchesRead(bs.rest, g, b);
    }
  }

  lemma {:induction false} PlainListReads(es: Exprs, g: nat, b: nat)
    requires AllPlain(es)
    ensures !AnyReads(es, g, b)
  {
    if es.Cons? {
      PlainReadsNothing(es.head, g, b);
      PlainListReads(es.tail, g, b);
    }
  }

  lemma {:induction false} WhensAreTurnedAway(
    bs: Branches, guard: Option<Expr>, branchGuard: Option<Expr>, groups: seq<Group>, final: seq<Group>, w: World, g: nat, b: nat)
    requires BranchesPlain(bs) && !Admits(branchGuard, w) && RewriteBranches(bs, guard, branchGuard, groups).Done?
    requires Extends(RewriteBranches(bs, guard, branchGuard, groups).groups, final)
    requires SomeWhenReads(RewriteBranches(bs, guard, branchGuard, groups).value, g, b)
    ensures TurnedAway(final, g, w)
  {
    var whenGuard := if ContainsMeans(bs.condition) then branchGuard else guard;
    var c := Rewrite(bs.condition, whenGuard, groups);
    var r := Rewrite(bs.result, guard, c.groups);
    var rest := RewriteBranches(bs.rest, guard, branchGuard, r.groups);
    BranchesExtend(bs.rest, guard, branchGuard, r.groups);
    ExtendsTrans(r.groups, rest.groups, final);
    RewriteExtends(bs.result, guard, c.groups);
    ExtendsTrans(c.groups, r.groups, final);
    if !ReadsColumn(c.value, g, b) {
      WhensAreTurnedAway(bs.rest, guard, branchGuard, r.groups, final, w, g, b);
    } else if ContainsMeans(bs.condition) {
      MarkersAreTurnedAway(bs.condition, whenGuard, groups, final, w, g, b);
    } else {
      RewriteOutcome(bs.condition, whenGuard, groups);
      PlainReadsNothing(bs.condition, g, b);
    }
  }

  /** A CASE without a base, anywhere in a SELECT list: if a plain branch before the first that asks the
      model is true of the row, no node that a branch's condition reads is asked about the row. */
  lemma ClaimedRowsAreNotAsked(
    bs: Branches, otherwise: Maybe, guard: Option<Expr>, groups: seq<Group>, final: seq<Group>, w: World, g: nat, b: nat)
    requires BranchesPlain(bs) && LeadingTaken(bs, w) && Rewrite(Case(Absent, bs, otherwise), guard, groups).Done?
    requires
      var r := Rewrite(Case(Absent, bs, otherwise), guard, groups);
      Extends(r.groups, final) && SomeWhenReads(r.value.branches, g, b)
    ensures TurnedAway(final, g, w)
  {
    var branchGuard := CaseGuard(Absent, bs, guard);
    var whens := RewriteBranches(bs, guard, branchGuard, groups);
    MaybeExtends(otherwise, guard, whens.groups);
    ExtendsTrans(whens.groups, RewriteMaybe(otherwise, guard, whens.groups).groups, final);
    if Admits(guard, w) {
      GatedRowsAreClaimed(Absent, bs, guard, w);
    } else {
      OuterTurnsAway(Absent, bs, guard, w);
    }
    WhensAreTurnedAway(bs, guard, branchGuard, groups, final, w, g, b);
  }
}

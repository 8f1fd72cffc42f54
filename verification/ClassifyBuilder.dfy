/** The builder as the rewriter uses it: one object, pushed to in place during the traversal. */
module ClassifyBuilder {
  import opened Wrappers
  import opened SelectExpr
  import opened ClassifyRewrite

  /** What the WHENs of a CASE are guarded by, collected branch by branch. */
  method GuardOfCase(base: Maybe, bs: Branches, outer: Option<Expr>) returns (guard: Option<Expr>)
    ensures guard == CaseGuard(base, bs, outer)
  {
    if base.Present? {
      return outer;
    }
    var leading: seq<Expr> := [];
    var left := bs;
    while left.When? && !ContainsMeans(left.condition)
      invariant leading + Leading(left) == Leading(bs)
      decreases left
    {
      leading := leading + [IsNotTrue(left.condition)];
      left := left.rest;
    }
    assert leading == Leading(bs);
    var all := Conjunction(leading);
    if outer.Some? && all.Some? {
      return Some(And(outer.value, all.value));
    } else if outer.Some? {
      return outer;
    } else {
      return all;
    }
  }

  class Builder {
    var groups: seq<Group>

    constructor ()
      ensures groups == []
    {
      groups := [];
    }

    /** Finds the marker's node and its place among the node's conditions, adding whichever is
        missing, and names the output column they stand for. */
    method Register(text: Expr, condition: string, guard: Option<Expr>) returns (column: Expr)
      modifies this
      ensures column == ColumnFor(old(groups), text, condition, guard)
      ensures groups == Registered(old(groups), text, condition, guard)
    {
      ghost var before := groups;
      var group := 0;
      while group < |groups| && !(groups[group].text == text && groups[group].guard == guard)
        invariant 0 <= group <= |groups| && groups == before
        invariant forall j :: 0 <= j < group ==> !(groups[j].text == text && groups[j].guard == guard)
      {
        group := group + 1;
      }
      assert group == FindGroup(before, text, guard);
      if group == |groups| {
        groups := groups + [Group(text, guard, [])];
      }
      var conditions := groups[group].conditions;
      var branch := 0;
      while branch < |conditions| && conditions[branch] != condition
        invariant 0 <= branch <= |conditions|
        invariant forall j :: 0 <= j < branch ==> conditions[j] != condition
      {
        branch := branch + 1;
      }
      assert branch == FindCondition(conditions, condition);
      if branch == |conditions| {
        groups := groups[group := groups[group].(conditions := conditions + [condition])];
      }
      assert groups == Registered(before, text, condition, guard);
      column := ClassColumn(group, branch);
    }

    /** `None` when a marker carries WITH RECALL; the builder is then of no further use. */
    method RewriteExpr(e: Expr, guard: Option<Expr>) returns (r: Option<Expr>)
      modifies this
      ensures r.None? <==> Rewrite(e, guard, old(groups)).Rejected?
      ensures r.Some? ==> Rewrite(e, guard, old(groups)) == Done(r.value, groups)
      decreases e, 1
    {
      match e {
        case Means(text, condition, recall) =>
          if recall.Some? {
            return None;
          }
          var column := Register(text, condition, guard);
          return Some(column);
        case Case(_, _, _) => r := RewriteCase(e, guard);
        case IsNotTrue(x) =>
          var inner := RewriteExpr(x, guard);
          return if inner.Some? then Some(IsNotTrue(inner.value)) else None;
        case And(left, right) =>
          var l := RewriteExpr(left, guard);
          if l.None? {
            return None;
          }
          var r' := RewriteExpr(right, guard);
          return if r'.Some? then Some(And(l.value, r'.value)) else None;
        case Call(f, args) =>
          var inner := RewriteArgs(args, guard);
          return if inner.Some? then Some(Call(f, inner.value)) else None;
        case _ => return Some(e);
      }
    }

    method RewriteCase(e: Expr, guard: Option<Expr>) returns (r: Option<Expr>)
      requires e.Case?
      modifies this
      ensures r.None? <==> Rewrite(e, guard, old(groups)).Rejected?
      ensures r.Some? ==> Rewrite(e, guard, old(groups)) == Done(r.value, groups)
      decreases e, 0
    {
      var branchGuard := GuardOfCase(e.base, e.branches, guard);
      var base := RewriteOptional(e.base, guard);
      if base.None? {
        return None;
      }
      var branches := RewriteWhens(e.branches, guard, branchGuard);
      if branches.None? {
        return None;
      }
      var otherwise := RewriteOptional(e.otherwise, guard);
      return if otherwise.Some? then Some(Case(base.value, branches.value, otherwise.value)) else None;
    }

    method RewriteOptional(m: Maybe, guard: Option<Expr>) returns (r: Option<Maybe>)
      modifies this
      ensures r.None? <==> RewriteMaybe(m, guard, old(groups)).Rejected?
      ensures r.Some? ==> RewriteMaybe(m, guard, old(groups)) == Done(r.value, groups)
      decreases m
    {
      if m.Absent? {
        return Some(Absent);
      }
      var inner := RewriteExpr(m.expr, guard);
      return if inner.Some? then Some(Present(inner.value)) else None;
    }

    method RewriteArgs(es: Exprs, guard: Option<Expr>) returns (r: Option<Exprs>)
      modifies this
      ensures r.None? <==> RewriteAll(es, guard, old(groups)).Rejected?
      ensures r.Some? ==> RewriteAll(es, guard, old(groups)) == Done(r.value, groups)
      decreases es
    {
      if es.Nil? {
        return Some(Nil);
      }
      var head := RewriteExpr(es.head, guard);
      if head.None? {
        return None;
      }
      var tail := RewriteArgs(es.tail, guard);
      return if tail.Some? then Some(Cons(head.value, tail.value)) else None;
    }

    method RewriteWhens(bs: Branches, guard: Option<Expr>, branchGuard: Option<Expr>) returns (r: Option<Branches>)
      modifies this
      ensures r.None? <==> RewriteBranches(bs, guard, branchGuard, old(groups)).Rejected?
      ensures r.Some? ==> RewriteBranches(bs, guard, branchGuard, old(groups)) == Done(r.value, groups)
      decreases bs
    {
      if bs.NoMore? {
        return Some(NoMore);
      }
      var condition := RewriteExpr(bs.condition, if ContainsMeans(bs.condition) then branchGuard else guard);
      if condition.None? {
        return None;
      }
      var result := RewriteExpr(bs.result, guard);
      if result.None? {
        return None;
      }
      var rest := RewriteWhens(bs.rest, guard, branchGuard);
      return if rest.Some? then Some(When(condition.value, result.value, rest.value)) else None;
    }
  }

  /** The whole projection: an untouched list without markers, else the rewritten list and the
      nodes to stack below it. */
  method RewriteSelectList(exprs: Exprs) returns (r: Rewritten<Exprs>)
    ensures r == RewriteProjection(exprs)
  {
    if !AnyContains(exprs) {
      AllOutcome(exprs, None, []);
      AnyRecallNeedsAMarker(exprs);
      return Done(exprs, []);
    }
    var builder := new Builder();
    var list := builder.RewriteArgs(exprs, None);
    return if list.Some? then Done(list.value, builder.groups) else Rejected;
  }
}

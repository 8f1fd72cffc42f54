/**
 The expressions a SELECT list is made of, and what they mean on one row: three-valued, with
 `CASE` taking its first matching branch and `MEANS` asking an oracle about a text.
 */
module SelectExpr {
  import opened Wrappers

  datatype Value = Null | Bool(b: bool) | Text(s: string) | Number(n: int)

  /** What the model makes of a text under a condition. */
  datatype Verdict = Yes | No | Failed

  /** `WITH RECALL`: the share of matches to keep, and how sure to be of it. */
  datatype Recall = Recall(target: real, confidence: Option<real>)

  datatype Expr =
    | Literal(value: Value)
    | Column(index: nat)
    | ClassColumn(group: nat, branch: nat) // a classify node's output
    | Means(text: Expr, condition: string, recall: Option<Recall>)
    | Case(base: Maybe, branches: Branches, otherwise: Maybe)
    | IsNotTrue(operand: Expr)
    | And(left: Expr, right: Expr)
    | Call(name: string, args: Exprs)

  datatype Exprs = Nil | Cons(head: Expr, tail: Exprs)

  datatype Branches = NoMore | When(condition: Expr, result: Expr, rest: Branches)

  datatype Maybe = Absent | Present(expr: Expr)

  /** A row, with the functions, casts and model answers it meets. */
  datatype World = World(
    columns: nat -> Value,
    classes: (nat, nat) -> Value,
    call: (string, seq<Value>) -> Value,
    equal: (Value, Value) -> Value,
    cast: Value -> string,
    oracle: (string, string) -> Verdict)

  /** A NULL text satisfies no condition without asking; a failed call is unknown. */
  function MeansValue(text: Value, condition: string, w: World): Value {
    if text == Null then Bool(false)
    else
      match w.oracle(w.cast(text), condition)
      case Yes => Bool(true)
      case No => Bool(false)
      case Failed => Null
  }

  function AndValue(a: Value, b: Value): Value {
    if a == Bool(false) || b == Bool(false) then Bool(false)
    else if a == Bool(true) && b == Bool(true) then Bool(true)
    else Null
  }

  function Eval(e: Expr, w: World): Value {
    match e
    case Literal(v) => v
    case Column(i) => w.columns(i)
    case ClassColumn(g, b) => w.classes(g, b)
    case Means(text, condition, _) => MeansValue(Eval(text, w), condition, w)
    case Case(base, branches, otherwise) =>
      var chosen := EvalBranches(branches, EvalMaybe(base, w), base.Present?, w);
      if chosen.Some? then chosen.value else EvalMaybe(otherwise, w)
    case IsNotTrue(x) => Bool(Eval(x, w) != Bool(true))
    case And(l, r) => AndValue(Eval(l, w), Eval(r, w))
    case Call(f, args) => w.call(f, EvalAll(args, w))
  }

  function EvalAll(es: Exprs, w: World): seq<Value> {
    match es
    case Nil => []
    case Cons(e, rest) => [Eval(e, w)] + EvalAll(rest, w)
  }

  /** An absent base or ELSE reads as NULL. */
  function EvalMaybe(m: Maybe, w: World): Value {
    if m.Present? then Eval(m.expr, w) else Null
  }

  predicate Matches(value: Value, base: Value, hasBase: bool, w: World) {
    (if hasBase then w.equal(base, value) else value) == Bool(true)
  }

  /** The first matching branch's result, if any branch matches. */
  function EvalBranches(bs: Branches, base: Value, hasBase: bool, w: World): Option<Value> {
    match bs
    case NoMore => None
    case When(c, r, rest) =>
      if Matches(Eval(c, w), base, hasBase, w) then Some(Eval(r, w)) else EvalBranches(rest, base, hasBase, w)
  }

  // ---- conjunctions and guards ----

  /** The library's conjunction of a list: none for an empty one, nested to the left. */
  function Conjunction(es: seq<Expr>): Option<Expr> {
    if es == [] then None
    else
      var n := |es| - 1;
      var earlier := Conjunction(es[..n]);
      if earlier.None? then Some(es[n]) else Some(And(earlier.value, es[n]))
  }

  /** Only a true guard admits the row, not a NULL one; no guard at all admits every row. */
  predicate Admits(guard: Option<Expr>, w: World) {
    guard.Some? ==> Eval(guard.value, w) == Bool(true)
  }

  predicate AllTrue(es: seq<Expr>, w: World) {
    forall i :: 0 <= i < |es| ==> Eval(es[i], w) == Bool(true)
  }

  lemma {:induction false} ConjunctionAdmits(es: seq<Expr>, w: World)
    ensures Admits(Conjunction(es), w) <==> AllTrue(es, w)
  {
    if es != [] {
      ConjunctionAdmits(es[..|es| - 1], w);
    }
  }

  // ---- markers ----

  predicate ContainsMeans(e: Expr) {
    match e
    case Means(_, _, _) => true
    case Case(base, branches, otherwise) => MaybeContains(base) || BranchesContain(branches) || MaybeContains(otherwise)
    case IsNotTrue(x) => ContainsMeans(x)
    case And(l, r) => ContainsMeans(l) || ContainsMeans(r)
    case Call(_, args) => AnyContains(args)
    case _ => false
  }

  predicate AnyContains(es: Exprs) {
    es.Cons? && (ContainsMeans(es.head) || AnyContains(es.tail))
  }

  predicate MaybeContains(m: Maybe) {
    m.Present? && ContainsMeans(m.expr)
  }

  predicate BranchesContain(bs: Branches) {
    bs.When? && (ContainsMeans(bs.condition) || ContainsMeans(bs.result) || BranchesContain(bs.rest))
  }

  /** Some marker the rewriter reaches carries WITH RECALL. */
  predicate HasRecall(e: Expr) {
    match e
    case Means(_, _, recall) => recall.Some?
    case Case(base, branches, otherwise) => MaybeHasRecall(base) || BranchesHaveRecall(branches) || MaybeHasRecall(otherwise)
    case IsNotTrue(x) => HasRecall(x)
    case And(l, r) => HasRecall(l) || HasRecall(r)
    case Call(_, args) => AnyHasRecall(args)
    case _ => false
  }

  predicate AnyHasRecall(es: Exprs) {
    es.Cons? && (HasRecall(es.head) || AnyHasRecall(es.tail))
  }

  predicate MaybeHasRecall(m: Maybe) {
    m.Present? && HasRecall(m.expr)
  }

  predicate BranchesHaveRecall(bs: Branches) {
    bs.When? && (HasRecall(bs.condition) || HasRecall(bs.result) || BranchesHaveRecall(bs.rest))
  }

  /** Without markers there is nothing to carry WITH RECALL. */
  lemma {:induction false} RecallNeedsAMarker(e: Expr)
    ensures HasRecall(e) ==> ContainsMeans(e)
  {
    match e
    case Case(base, branches, otherwise) =>
      MaybeRecallNeedsAMarker(base);
      BranchRecallNeedsAMarker(branches);
      MaybeRecallNeedsAMarker(otherwise);
    case IsNotTrue(x) => RecallNeedsAMarker(x);
    case And(l, r) =>
      RecallNeedsAMarker(l);
      RecallNeedsAMarker(r);
    case Call(_, args) => AnyRecallNeedsAMarker(args);
    case _ =>
  }

  lemma {:induction false} MaybeRecallNeedsAMarker(m: Maybe)
    ensures MaybeHasRecall(m) ==> MaybeContains(m)
  {
    if m.Present? {
      RecallNeedsAMarker(m.expr);
    }
  }

  lemma {:induction false} AnyRecallNeedsAMarker(es: Exprs)
    ensures AnyHasRecall(es) ==> AnyContains(es)
  {
    if es.Cons? {
      RecallNeedsAMarker(es.head);
      AnyRecallNeedsAMarker(es.tail);
    }
  }

  lemma {:induction false} BranchRecallNeedsAMarker(bs: Branches)
    ensures BranchesHaveRecall(bs) ==> BranchesContain(bs)
  {
    if bs.When? {
      RecallNeedsAMarker(bs.condition);
      RecallNeedsAMarker(bs.result);
      BranchRecallNeedsAMarker(bs.rest);
    }
  }

  // ---- what the query wrote ----

  /** No classify column yet: those exist only after the rewrite. */
  predicate Plain(e: Expr) {
    match e
    case ClassColumn(_, _) => false
    case Means(text, _, _) => Plain(text)
    case Case(base, branches, otherwise) => MaybePlain(base) && BranchesPlain(branches) && MaybePlain(otherwise)
    case IsNotTrue(x) => Plain(x)
    case And(l, r) => Plain(l) && Plain(r)
    case Call(_, args) => AllPlain(args)
    case _ => true
  }

  predicate AllPlain(es: Exprs) {
    es.Cons? ==> Plain(es.head) && AllPlain(es.tail)
  }

  predicate MaybePlain(m: Maybe) {
    m.Present? ==> Plain(m.expr)
  }

  predicate BranchesPlain(bs: Branches) {
    bs.When? ==> Plain(bs.condition) && Plain(bs.result) && BranchesPlain(bs.rest)
  }

  ghost predicate SameClasses(a: (nat, nat) -> Value, b: (nat, nat) -> Value) {
    forall g: nat, i: nat :: a(g, i) == b(g, i)
  }

  /** An expression notices only what the classify columns hold, and a plain one not even that. */
  lemma {:induction false} SameValue(e: Expr, w: World, classes: (nat, nat) -> Value)
    requires Plain(e) || SameClasses(w.classes, classes)
    ensures Eval(e, w.(classes := classes)) == Eval(e, w)
  {
    match e
    case Means(text, _, _) => SameValue(text, w, classes);
    case Case(base, branches, otherwise) =>
      SameMaybe(base, w, classes);
      SameBranches(branches, EvalMaybe(base, w), base.Present?, w, classes);
      SameMaybe(otherwise, w, classes);
    case IsNotTrue(x) => SameValue(x, w, classes);
    case And(l, r) =>
      SameValue(l, w, classes);
      SameValue(r, w, classes);
    case Call(_, args) => SameValues(args, w, classes);
    case _ =>
  }

  lemma {:induction false} SameValues(es: Exprs, w: World, classes: (nat, nat) -> Value)
    requires AllPlain(es) || SameClasses(w.classes, classes)
    ensures EvalAll(es, w.(classes := classes)) == EvalAll(es, w)
  {
    if es.Cons? {
      SameValue(es.head, w, classes);
      SameValues(es.tail, w, classes);
    }
  }

  lemma {:induction false} SameMaybe(m: Maybe, w: World, classes: (nat, nat) -> Value)
    requires MaybePlain(m) || SameClasses(w.classes, classes)
    ensures EvalMaybe(m, w.(classes := classes)) == EvalMaybe(m, w)
  {
    if m.Present? {
      SameValue(m.expr, w, classes);
    }
  }

  lemma {:induction false} SameBranches(bs: Branches, base: Value, hasBase: bool, w: World, classes: (nat, nat) -> Value)
    requires BranchesPlain(bs) || SameClasses(w.classes, classes)
    ensures EvalBranches(bs, base, hasBase, w.(classes := classes)) == EvalBranches(bs, base, hasBase, w)
  {
    if bs.When? {
      SameValue(bs.condition, w, classes);
      SameValue(bs.result, w, classes);
      SameBranches(bs.rest, base, hasBase, w, classes);
    }
  }

  /** An expression without markers does not notice what the model would answer. */
  lemma {:induction false} SameWithoutMarkers(e: Expr, w: World, oracle: (string, string) -> Verdict)
    requires !ContainsMeans(e)
    ensures Eval(e, w.(oracle := oracle)) == Eval(e, w)
  {
    match e
    case Case(base, branches, otherwise) =>
      MaybeSameWithoutMarkers(base, w, oracle);
      BranchesSameWithoutMarkers(branches, EvalMaybe(base, w), base.Present?, w, oracle);
      MaybeSameWithoutMarkers(otherwise, w, oracle);
    case IsNotTrue(x) => SameWithoutMarkers(x, w, oracle);
    case And(l, r) =>
      SameWithoutMarkers(l, w, oracle);
      SameWithoutMarkers(r, w, oracle);
    case Call(_, args) => AllSameWithoutMarkers(args, w, oracle);
    case _ =>
  }

  lemma {:induction false} AllSameWithoutMarkers(es: Exprs, w: World, oracle: (string, string) -> Verdict)
    requires !AnyContains(es)
    ensures EvalAll(es, w.(oracle := oracle)) == EvalAll(es, w)
  {
    if es.Cons? {
      SameWithoutMarkers(es.head, w, oracle);
      AllSameWithoutMarkers(es.tail, w, oracle);
    }
  }

  lemma {:induction false} MaybeSameWithoutMarkers(m: Maybe, w: World, oracle: (string, string) -> Verdict)
    requires !MaybeContains(m)
    ensures EvalMaybe(m, w.(oracle := oracle)) == EvalMaybe(m, w)
  {
    if m.Present? {
      SameWithoutMarkers(m.expr, w, oracle);
    }
  }

  lemma {:induction false} BranchesSameWithoutMarkers(bs: Branches, base: Value, hasBase: bool, w: World, oracle: (string, string) -> Verdict)
    requires !BranchesContain(bs)
    ensures EvalBranches(bs, base, hasBase, w.(oracle := oracle)) == EvalBranches(bs, base, hasBase, w)
  {
    if bs.When? {
      SameWithoutMarkers(bs.condition, w, oracle);
      SameWithoutMarkers(bs.result, w, oracle);
      BranchesSameWithoutMarkers(bs.rest, base, hasBase, w, oracle);
    }
  }
}

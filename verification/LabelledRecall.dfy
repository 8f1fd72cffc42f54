/**
 Labelling a sample against the index, and what its worst-case recall promises: however the
 failed labels turn out, the scan's own keep rule keeps at least the share of the matches in
 the sample that the calibration reported.
 */
module LabelledRecall {
  import opened Wrappers
  import opened Wilson
  import opened Calibrate
  import SampleDraw

  type Hash = SampleDraw.Hash

  type Scores = map<Hash, real>

  /** A sampled document and what the model said of it; `None` when the call failed. */
  datatype Label = Label(doc: Hash, matched: Option<bool>)

  const NO_SCORES := SampledScores([], 0, 0, [], 0)

  /** One more label counted: by its score if it has one, else as never indexed or as lost. */
  function Count(scores: SampledScores, one: Label, best: Scores, indexed: set<Hash>): SampledScores {
    if one.matched == Some(false) then scores
    else if one.matched == None then
      if one.doc in best then scores.(unverified := scores.unverified + [best[one.doc]])
      else if one.doc in indexed then scores.(lost := scores.lost + 1)
      else scores
    else
      if one.doc in best then scores.(positive := scores.positive + [best[one.doc]])
      else if one.doc in indexed then scores.(lost := scores.lost + 1)
      else scores.(unindexed := scores.unindexed + 1)
  }

  function Tally(labels: seq<Label>, best: Scores, indexed: set<Hash>): (scores: SampledScores)
    ensures scores.sampled == |labels|
  {
    if labels == [] then NO_SCORES
    else
      var scores := Count(Tally(labels[..|labels| - 1], best, indexed), labels[|labels| - 1], best, indexed);
      scores.(sampled := |labels|)
  }

  method ScoreLabels(labels: seq<Label>, best: Scores, indexed: set<Hash>) returns (scores: SampledScores)
    ensures scores == Tally(labels, best, indexed)
  {
    var positive: seq<real>, unindexed, lost, unverified: seq<real> := [], 0, 0, [];
    for i := 0 to |labels|
      invariant SampledScores(positive, unindexed, lost, unverified, i) == Tally(labels[..i], best, indexed)
    {
      assert labels[..i + 1][..i] == labels[..i];
      var hash := labels[i].doc;
      match labels[i].matched {
        case Some(false) => continue;
        case None =>
          if hash in best {
            unverified := unverified + [best[hash]];
          } else if hash in indexed {
            lost := lost + 1;
          }
          continue;
        case Some(true) =>
      }
      if hash in best {
        positive := positive + [best[hash]];
      } else if hash in indexed {
        lost := lost + 1;
      } else {
        unindexed := unindexed + 1;
      }
    }
    assert labels[..|labels|] == labels;
    scores := SampledScores(positive, unindexed, lost, unverified, |labels|);
  }

  // ---- what actually happens to the sample ----

  /** The scan's keep rule: scored at the floor or above, or never indexed. */
  predicate Survives(doc: Hash, floor: Floor, best: Scores, indexed: set<Hash>) {
    (doc in best && Keeps(floor, best[doc])) || doc !in indexed
  }

  /** A way the failed labels could turn out. */
  ghost predicate Truth(labels: seq<Label>, truth: seq<bool>) {
    |truth| == |labels|
    && forall i :: 0 <= i < |labels| && labels[i].matched.Some? ==> truth[i] == labels[i].matched.value
  }

  function Matches(truth: seq<bool>): nat {
    if truth == [] then 0
    else Matches(truth[..|truth| - 1]) + if truth[|truth| - 1] then 1 else 0
  }

  function KeptMatches(labels: seq<Label>, truth: seq<bool>, floor: Floor, best: Scores, indexed: set<Hash>): (n: nat)
    requires |truth| == |labels|
    ensures n <= Matches(truth)
  {
    if truth == [] then 0
    else
      var n := |truth| - 1;
      KeptMatches(labels[..n], truth[..n], floor, best, indexed)
      + if truth[n] && Survives(labels[n].doc, floor, best, indexed) then 1 else 0
  }

  /** The share of matches kept; all of them when there are none. */
  function Recall(kept: nat, total: nat): real {
    if total == 0 then 1.0 else kept as real / total as real
  }

  function WorstKept(floor: Floor, scores: SampledScores): nat {
    RecallAt(floor, scores).0
  }

  function WorstTotal(floor: Floor, scores: SampledScores): (n: nat)
    ensures n >= WorstKept(floor, scores)
  {
    RecallAt(floor, scores).1
  }

  function WorstLost(floor: Floor, scores: SampledScores): nat {
    WorstTotal(floor, scores) - WorstKept(floor, scores)
  }

  lemma OneMorePositive(scores: SampledScores, score: real, floor: Floor)
    ensures
      var after := scores.(positive := scores.positive + [score]);
      && WorstKept(floor, after) == WorstKept(floor, scores) + (if Keeps(floor, score) then 1 else 0)
      && WorstLost(floor, after) == WorstLost(floor, scores) + if Keeps(floor, score) then 0 else 1
  {
    assert Kept([score], floor) == if Keeps(floor, score) then 1 else 0;
    KeptAppends(scores.positive, [score], floor);
  }

  lemma OneMoreUnverified(scores: SampledScores, score: real, floor: Floor)
    ensures
      var after := scores.(unverified := scores.unverified + [score]);
      && WorstKept(floor, after) == WorstKept(floor, scores)
      && WorstLost(floor, after) == WorstLost(floor, scores) + if Keeps(floor, score) then 0 else 1
  {
    assert Kept([score], floor) == if Keeps(floor, score) then 1 else 0;
    KeptAppends(scores.unverified, [score], floor);
  }

  lemma OneMoreUnscored(scores: SampledScores, floor: Floor)
    ensures WorstKept(floor, scores.(lost := scores.lost + 1)) == WorstKept(floor, scores)
    ensures WorstLost(floor, scores.(lost := scores.lost + 1)) == WorstLost(floor, scores) + 1
    ensures WorstKept(floor, scores.(unindexed := scores.unindexed + 1)) == WorstKept(floor, scores) + 1
    ensures WorstLost(floor, scores.(unindexed := scores.unindexed + 1)) == WorstLost(floor, scores)
  {
  }

  lemma CountKeeps(scores: SampledScores, one: Label, truth: bool, floor: Floor, best: Scores, indexed: set<Hash>)
    requires one.matched.Some? ==> truth == one.matched.value
    ensures
      var after := Count(scores, one, best, indexed);
      var survives := Survives(one.doc, floor, best, indexed);
      && WorstKept(floor, after) <= WorstKept(floor, scores) + (if truth && survives then 1 else 0)
      && WorstLost(floor, after) >= WorstLost(floor, scores) + if truth && !survives then 1 else 0
  {
    if one.doc in best {
      OneMorePositive(scores, best[one.doc], floor);
      OneMoreUnverified(scores, best[one.doc], floor);
    } else {
      OneMoreUnscored(scores, floor);
    }
  }

  lemma TallyStep(labels: seq<Label>, floor: Floor, best: Scores, indexed: set<Hash>)
    requires labels != []
    ensures
      var counted := Count(Tally(labels[..|labels| - 1], best, indexed), labels[|labels| - 1], best, indexed);
      && WorstKept(floor, Tally(labels, best, indexed)) == WorstKept(floor, counted)
      && WorstLost(floor, Tally(labels, best, indexed)) == WorstLost(floor, counted)
  {
  }

  /** Whatever the failed labels hide, at least as many matches survive as the worst case
      counts kept, and no more are lost than it counts lost. */
  lemma {:induction false} WorstCaseIsWorst(
    labels: seq<Label>, truth: seq<bool>, floor: Floor, best: Scores, indexed: set<Hash>)
    requires Truth(labels, truth)
    ensures WorstKept(floor, Tally(labels, best, indexed)) <= KeptMatches(labels, truth, floor, best, indexed)
    ensures Matches(truth) - KeptMatches(labels, truth, floor, best, indexed) <= WorstLost(floor, Tally(labels, best, indexed))
  {
    if labels != [] {
      var n := |labels| - 1;
      WorstCaseIsWorst(labels[..n], truth[..n], floor, best, indexed);
      CountKeeps(Tally(labels[..n], best, indexed), labels[n], truth[n], floor, best, indexed);
      TallyStep(labels, floor, best, indexed);
    }
  }

  lemma ShareAtMostOne(k: nat, t: nat, share: real)
    requires k <= t && t > 0 && share == k as real / t as real
    ensures 0.0 <= share <= 1.0 && share * t as real == k as real
  {
    var n := t as real;
    assert share * n == k as real;
    if share > 1.0 {
      ProductPositive(share - 1.0, n);
    }
    if share < 0.0 {
      ProductPositive(-share, n);
    }
  }

  lemma Distribute(a: real, b: real, c: real)
    ensures a * (b + c) == a * b + a * c
  {
  }

  /** With a share of at most one, extra kept matches only help. */
  lemma ExtraHelp(a: real, k: real, n: real, kept: real, m: real)
    requires 0.0 <= a <= 1.0 && a * n == k && kept >= k && m - kept <= n - k
    ensures a * m <= kept
  {
    var extra := kept - k;
    var slack := n + extra - m;
    ProductNonNegative(a, slack);
    Distribute(a, m, slack);
    Distribute(a, n, extra);
    ScaleOrder(a, 1.0, extra);
    assert m + slack == n + extra;
  }

  lemma MoreKeptFewerLost(k: nat, t: nat, kept: nat, total: nat)
    requires k <= t && k <= kept <= total && total - kept <= t - k
    ensures Recall(k, t) <= Recall(kept, total)
  {
    if total > 0 {
      var a := Recall(k, t);
      if t == 0 {
        TargetAsProduct(kept, total, 1.0);
      } else {
        ShareAtMostOne(k, t, a);
        ExtraHelp(a, k as real, t as real, kept as real, total as real);
        TargetAsProduct(kept, total, a);
      }
      assert MeetsTarget(kept, total, a);
    } else {
      if t > 0 {
        ShareAtMostOne(k, t, Recall(k, t));
      }
    }
  }

  /** The recall the calibration computes for a floor. */
  function WorstRecall(labels: seq<Label>, floor: Floor, best: Scores, indexed: set<Hash>): real {
    Recall(WorstKept(floor, Tally(labels, best, indexed)), WorstTotal(floor, Tally(labels, best, indexed)))
  }

  /** The recall the scan has on the sample, once the truth is known. */
  function ScanRecall(labels: seq<Label>, truth: seq<bool>, floor: Floor, best: Scores, indexed: set<Hash>): real
    requires |truth| == |labels|
  {
    Recall(KeptMatches(labels, truth, floor, best, indexed), Matches(truth))
  }

  /** For every way the failed labels could turn out and every floor, the recall of the scan's
      keep rule on the sample is at least the recall the calibration computed. */
  lemma RecallIsNoWorse(labels: seq<Label>, truth: seq<bool>, floor: Floor, best: Scores, indexed: set<Hash>)
    requires Truth(labels, truth)
    ensures WorstRecall(labels, floor, best, indexed) <= ScanRecall(labels, truth, floor, best, indexed)
  {
    WorstCaseIsWorst(labels, truth, floor, best, indexed);
    var scores := Tally(labels, best, indexed);
    MoreKeptFewerLost(WorstKept(floor, scores), WorstTotal(floor, scores),
                      KeptMatches(labels, truth, floor, best, indexed), Matches(truth));
  }

  // ---- and no better ----

  /** The label, or for a failed one a match exactly if the scan loses the document. */
  predicate WorstFor(one: Label, floor: Floor, best: Scores, indexed: set<Hash>) {
    if one.matched.Some? then one.matched.value else !Survives(one.doc, floor, best, indexed)
  }

  /** The worst way for the failed labels to turn out at a floor. */
  function WorstTruth(labels: seq<Label>, floor: Floor, best: Scores, indexed: set<Hash>): (truth: seq<bool>)
    ensures |truth| == |labels|
    ensures forall i :: 0 <= i < |labels| ==> truth[i] == WorstFor(labels[i], floor, best, indexed)
  {
    seq(|labels|, i requires 0 <= i < |labels| => WorstFor(labels[i], floor, best, indexed))
  }

  lemma CountIsAttained(scores: SampledScores, one: Label, floor: Floor, best: Scores, indexed: set<Hash>)
    requires best.Keys <= indexed
    ensures
      var after, truth := Count(scores, one, best, indexed), WorstFor(one, floor, best, indexed);
      var survives := Survives(one.doc, floor, best, indexed);
      && WorstKept(floor, after) == WorstKept(floor, scores) + (if truth && survives then 1 else 0)
      && WorstLost(floor, after) == WorstLost(floor, scores) + if truth && !survives then 1 else 0
  {
    if one.doc in best {
      OneMorePositive(scores, best[one.doc], floor);
      OneMoreUnverified(scores, best[one.doc], floor);
    } else {
      OneMoreUnscored(scores, floor);
    }
  }

  lemma OneMoreTruth(labels: seq<Label>, floor: Floor, best: Scores, indexed: set<Hash>)
    requires labels != []
    ensures
      var n := |labels| - 1;
      var truth, before := WorstTruth(labels, floor, best, indexed), WorstTruth(labels[..n], floor, best, indexed);
      var last := WorstFor(labels[n], floor, best, indexed);
      && Matches(truth) == Matches(before) + (if last then 1 else 0)
      && KeptMatches(labels, truth, floor, best, indexed)
         == KeptMatches(labels[..n], before, floor, best, indexed)
          + if last && Survives(labels[n].doc, floor, best, indexed) then 1 else 0
  {
    hide WorstFor, Survives;
    var n := |labels| - 1;
    assert WorstTruth(labels, floor, best, indexed)[..n] == WorstTruth(labels[..n], floor, best, indexed);
  }

  lemma KeptAndLost(floor: Floor, scores: SampledScores)
    ensures WorstTotal(floor, scores) == WorstKept(floor, scores) + WorstLost(floor, scores)
  {
  }

  ghost predicate Attained(labels: seq<Label>, floor: Floor, best: Scores, indexed: set<Hash>) {
    var scores, truth := Tally(labels, best, indexed), WorstTruth(labels, floor, best, indexed);
    && WorstKept(floor, scores) == KeptMatches(labels, truth, floor, best, indexed)
    && WorstTotal(floor, scores) == Matches(truth)
  }

  lemma NothingKept(floor: Floor)
    ensures Kept([], floor) == 0
  {
  }

  lemma NoneKept(floor: Floor)
    ensures WorstKept(floor, NO_SCORES) == 0 && WorstTotal(floor, NO_SCORES) == 0
  {
    NothingKept(floor);
    hide Kept;
  }

  lemma NoMatches(floor: Floor, best: Scores, indexed: set<Hash>)
    ensures Matches([]) == 0 && KeptMatches([], [], floor, best, indexed) == 0
    ensures Tally([], best, indexed) == NO_SCORES
  {
    hide Count, Survives;
  }

  lemma NothingToAttain(floor: Floor, best: Scores, indexed: set<Hash>)
    ensures Attained([], floor, best, indexed)
  {
    NoneKept(floor);
    NoMatches(floor, best, indexed);
    hide Tally, WorstTruth, WorstKept, WorstTotal, KeptMatches, Matches;
    assert WorstTruth([], floor, best, indexed) == [];
  }

  lemma OneMoreAttained(labels: seq<Label>, floor: Floor, best: Scores, indexed: set<Hash>)
    requires labels != [] && best.Keys <= indexed && Attained(labels[..|labels| - 1], floor, best, indexed)
    ensures Attained(labels, floor, best, indexed)
  {
    var n := |labels| - 1;
    CountIsAttained(Tally(labels[..n], best, indexed), labels[n], floor, best, indexed);
    TallyStep(labels, floor, best, indexed);
    OneMoreTruth(labels, floor, best, indexed);
    KeptAndLost(floor, Tally(labels, best, indexed));
    KeptAndLost(floor, Tally(labels[..n], best, indexed));
    hide Tally, Count, WorstFor, WorstTruth, Survives, WorstKept, WorstTotal, WorstLost, RecallAt, KeptMatches, Matches;
  }

  lemma {:induction false} WorstCaseIsAttained(labels: seq<Label>, floor: Floor, best: Scores, indexed: set<Hash>)
    requires best.Keys <= indexed
    ensures Attained(labels, floor, best, indexed)
  {
    hide *;
    if labels == [] {
      NothingToAttain(floor, best, indexed);
    } else {
      WorstCaseIsAttained(labels[..|labels| - 1], floor, best, indexed);
      OneMoreAttained(labels, floor, best, indexed);
    }
  }

  /** The recall the calibration computes is the least the scan can have: some way for the failed labels
      to turn out gives just that. With none failed there is only one way, and it is the scan's recall. */
  lemma RecallIsTheWorst(labels: seq<Label>, floor: Floor, best: Scores, indexed: set<Hash>)
    requires best.Keys <= indexed
    ensures
      var truth := WorstTruth(labels, floor, best, indexed);
      Truth(labels, truth) && ScanRecall(labels, truth, floor, best, indexed) == WorstRecall(labels, floor, best, indexed)
  {
    WorstCaseIsAttained(labels, floor, best, indexed);
  }
}

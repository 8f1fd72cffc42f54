/**
 `WITH RECALL` calibration: the score floor that keeps a target share of the true matches,
 estimated on a labelled sample or certified by the Wilson bound. Scores are reals, and the
 floor that prunes nothing is an explicit value.
 */
module Calibrate {
  import opened Wrappers
  import opened Wilson

  datatype Floor = Nothing | At(score: real)

  /** A score survives a floor it reaches. */
  predicate Keeps(floor: Floor, score: real) {
    floor.At? ==> score >= floor.score
  }

  predicate AtMost(a: Floor, b: Floor) {
    a.At? ==> b.At? && a.score <= b.score
  }

  datatype SampledScores = SampledScores(
    positive: seq<real>,   // scored positives
    unindexed: nat,        // positives that pass at any floor
    lost: nat,             // positives lost at any floor
    unverified: seq<real>, // scores of documents whose label failed
    sampled: nat)

  datatype Calibration = Calibration(
    threshold: Floor,
    sampledRows: nat,
    estimatedRecall: real,
    certifiedRecall: Option<real>)
  {
    predicate Meets(target: real) {
      (if certifiedRecall.Some? then certifiedRecall.value else estimatedRecall) >= target
    }
  }

  function Kept(scores: seq<real>, floor: Floor): nat {
    if scores == [] then 0
    else Kept(scores[1..], floor) + if Keeps(floor, scores[0]) then 1 else 0
  }

  function Known(scores: SampledScores): nat {
    |scores.positive| + scores.unindexed + scores.lost
  }

  lemma {:induction false} KeptAtMost(scores: seq<real>, floor: Floor)
    ensures Kept(scores, floor) <= |scores|
  {
    if scores != [] {
      KeptAtMost(scores[1..], floor);
    }
  }

  /** Positives kept at a floor, and positives in all, assuming the worst of failed labels:
      below the floor they are lost matches, above it kept non-matches. */
  function RecallAt(floor: Floor, scores: SampledScores): (r: (nat, nat))
    ensures r.0 <= r.1 && Known(scores) <= r.1
  {
    KeptAtMost(scores.positive, floor);
    KeptAtMost(scores.unverified, floor);
    (Kept(scores.positive, floor) + scores.unindexed,
     Known(scores) + |scores.unverified| - Kept(scores.unverified, floor))
  }

  predicate MeetsTarget(kept: nat, total: nat, target: real) {
    total == 0 || kept as real / total as real >= target
  }

  predicate MeetsAt(target: real, floor: Floor, scores: SampledScores) {
    var (kept, total) := RecallAt(floor, scores);
    MeetsTarget(kept, total, target)
  }

  lemma {:induction false} KeptFalls(scores: seq<real>, low: Floor, high: Floor)
    requires AtMost(low, high)
    ensures Kept(scores, high) <= Kept(scores, low)
  {
    if scores != [] {
      KeptFalls(scores[1..], low, high);
    }
  }

  /** Two floors with no score between them keep the same scores. */
  lemma {:induction false} KeptSame(scores: seq<real>, low: Floor, high: Floor)
    requires AtMost(low, high) && forall x :: x in scores && Keeps(low, x) ==> Keeps(high, x)
    ensures Kept(scores, high) == Kept(scores, low)
  {
    if scores != [] {
      assert scores[0] in scores;
      KeptSame(scores[1..], low, high);
    }
  }

  lemma {:induction false} KeptAppends(a: seq<real>, b: seq<real>, floor: Floor)
    ensures Kept(a + b, floor) == Kept(a, floor) + Kept(b, floor)
  {
    if a == [] {
      assert a + b == b;
    } else {
      assert (a + b)[1..] == a[1..] + b;
      KeptAppends(a[1..], b, floor);
    }
  }

  // ---- the target as a product, so that no ratio needs comparing ----

  lemma TargetAsProduct(kept: nat, total: nat, target: real)
    requires kept <= total
    ensures MeetsTarget(kept, total, target) <==> kept as real >= target * total as real
  {
    if total > 0 {
      var ratio, n := kept as real / total as real, total as real;
      assert ratio * n == kept as real;
      if ratio >= target {
        ScaleOrder(target, ratio, n);
      } else {
        ProductPositive(target - ratio, n);
      }
    }
  }

  lemma FewerMeetLess(kept: nat, total: nat, more: nat, fewer: nat, target: real)
    requires kept <= more <= fewer <= total && target >= 0.0
    requires MeetsTarget(kept, total, target)
    ensures MeetsTarget(more, fewer, target)
  {
    TargetAsProduct(kept, total, target);
    TargetAsProduct(more, fewer, target);
    ScaleOrder(fewer as real, total as real, target);
  }

  /** Lowering a floor never hurts recall. */
  lemma LowerMeets(target: real, low: Floor, high: Floor, scores: SampledScores)
    requires AtMost(low, high) && target >= 0.0 && MeetsAt(target, high, scores)
    ensures MeetsAt(target, low, scores)
  {
    KeptFalls(scores.positive, low, high);
    KeptFalls(scores.unverified, low, high);
    FewerMeetLess(RecallAt(high, scores).0, RecallAt(high, scores).1, RecallAt(low, scores).0, RecallAt(low, scores).1, target);
  }

  ghost predicate Scored(scores: SampledScores, x: real) {
    x in scores.positive || x in scores.unverified
  }

  lemma SameRecall(low: Floor, high: Floor, scores: SampledScores)
    requires AtMost(low, high) && forall x :: Scored(scores, x) && Keeps(low, x) ==> Keeps(high, x)
    ensures RecallAt(low, scores) == RecallAt(high, scores)
  {
    forall x | x in scores.positive || x in scores.unverified ensures Scored(scores, x) {
    }
    KeptSame(scores.positive, low, high);
    KeptSame(scores.unverified, low, high);
  }

  // ---- what each reading of the sample must return ----

  /** The unindexed positives alone meet the target. */
  predicate PassthroughSuffices(target: real, scores: SampledScores) {
    scores.unindexed as real >= target * Known(scores) as real
  }

  /** The highest floor the estimate may return: the default when nothing raises it. */
  function Cap(target: real, defaultFloor: real, scores: SampledScores): Option<real> {
    if PassthroughSuffices(target, scores) then Some(defaultFloor) else None
  }

  ghost predicate Allowed(cap: Option<real>, f: real) {
    cap.Some? ==> f <= cap.value
  }

  /** The greatest of all real floors up to the cap that meet the target in the worst case,
      not only of the sampled scores; pruning nothing exactly when there is none. */
  ghost predicate GreatestFloor(target: real, cap: Option<real>, scores: SampledScores, floor: Floor) {
    match floor
    case At(v) => Allowed(cap, v) && MeetsAt(target, floor, scores)
                  && forall f {:trigger Allowed(cap, f)} :: v < f && Allowed(cap, f) ==> !MeetsAt(target, At(f), scores)
    case Nothing => forall f {:trigger Allowed(cap, f)} :: Allowed(cap, f) ==> !MeetsAt(target, At(f), scores)
  }

  lemma GreatestFloorIsUnique(target: real, cap: Option<real>, scores: SampledScores, a: Floor, b: Floor)
    requires GreatestFloor(target, cap, scores, a) && GreatestFloor(target, cap, scores, b)
    ensures a == b
  {
    if a.At? {
      assert Allowed(cap, a.score);
    }
    if b.At? {
      assert Allowed(cap, b.score);
    }
  }

  lemma BelowAll(scores: seq<real>) returns (low: real)
    ensures forall x :: x in scores ==> low < x
  {
    low := 0.0;
    for i := 0 to |scores|
      invariant forall j :: 0 <= j < i ==> low < scores[j]
    {
      if scores[i] <= low {
        low := scores[i] - 1.0;
      }
    }
  }

  /** With enough known positives missing their unindexed share, the estimate is minus
      infinity exactly when no floor at all meets the target. */
  lemma NothingExactlyWhenUnreachable(target: real, scores: SampledScores, floor: Floor)
    requires target > 0.0 && GreatestFloor(target, None, scores, floor)
    ensures floor == Nothing <==> !MeetsAt(target, Nothing, scores)
  {
    if MeetsAt(target, Nothing, scores) {
      var low := BelowAll(scores.positive + scores.unverified);
      forall x | Scored(scores, x) ensures low < x {
        assert x in scores.positive + scores.unverified;
      }
      SameRecall(Nothing, At(low), scores);
      assert Allowed(None, low);
    } else if floor.At? {
      LowerMeets(target, Nothing, floor, scores);
    }
  }

  /** Floors the certified search tries: every score no higher than the best positive. */
  function Candidates(scores: SampledScores): set<real> {
    set x | x in scores.positive + scores.unverified && exists p :: p in scores.positive && x <= p
  }

  function Alpha(confidence: real, scores: SampledScores): real
    requires Candidates(scores) != {}
  {
    (1.0 - confidence) / |Candidates(scores)| as real
  }

  predicate Certifies(m: Numerics, target: real, alpha: real, floor: Floor, scores: SampledScores) {
    var (kept, total) := RecallAt(floor, scores);
    LowerBound(m, kept, total, alpha) >= target
  }

  /** The highest candidate whose corrected bound clears the target; nothing if none does. */
  ghost predicate HighestCertified(m: Numerics, target: real, confidence: real, scores: SampledScores, floor: Floor) {
    if Candidates(scores) == {} then floor == Nothing
    else
      var alpha := Alpha(confidence, scores);
      match floor
      case At(v) => v in Candidates(scores) && Certifies(m, target, alpha, floor, scores)
                    && forall c :: c in Candidates(scores) && v < c ==> !Certifies(m, target, alpha, At(c), scores)
      case Nothing => forall c :: c in Candidates(scores) ==> !Certifies(m, target, alpha, At(c), scores)
  }

  // ---- how the two readings relate ----

  lemma LargerAlphaCertifies(m: Numerics, target: real, small: real, large: real, floor: Floor, scores: SampledScores)
    requires m.Sound() && small <= large && Certifies(m, target, small, floor, scores)
    ensures Certifies(m, target, large, floor, scores)
  {
    LowerBoundMonotone(m, RecallAt(floor, scores).0, RecallAt(floor, scores).1, small, large);
  }

  lemma ShareOrder(small: real, large: real, n: nat)
    requires small <= large && n > 0
    ensures small / n as real <= large / n as real
  {
    var a, b := small / n as real, large / n as real;
    assert n as real * a == small && n as real * b == large;
    DivideBy(n as real, a, b);
  }

  lemma ShareIsSmaller(x: real, n: nat)
    requires x >= 0.0 && n > 0
    ensures x / n as real <= x
  {
    var share := x / n as real;
    assert n as real * share == x;
    DivideBy(n as real, 0.0, share);
    ScaleOrder(1.0, n as real, share);
  }

  /** Asking for more confidence never raises the certified floor. */
  lemma MoreConfidencePrunesLess(
    m: Numerics, target: real, less: real, more: real, scores: SampledScores, high: Floor, low: Floor)
    requires m.Sound() && less <= more
    requires HighestCertified(m, target, less, scores, high) && HighestCertified(m, target, more, scores, low)
    ensures AtMost(low, high)
  {
    if low.At? {
      ShareOrder(1.0 - more, 1.0 - less, |Candidates(scores)|);
      LargerAlphaCertifies(m, target, Alpha(more, scores), Alpha(less, scores), low, scores);
    }
  }

  /** A certified floor never exceeds the estimated one, as long as the unindexed positives
      alone fall short and the corrected alpha is at most one half. */
  lemma CertifiedIsBelowEstimate(
    m: Numerics, target: real, confidence: real, scores: SampledScores, certified: Floor, estimated: Floor)
    requires m.Sound() && target > 0.0 && !PassthroughSuffices(target, scores)
    requires Candidates(scores) != {} ==> Alpha(confidence, scores) <= 0.5
    requires HighestCertified(m, target, confidence, scores, certified)
    requires GreatestFloor(target, None, scores, estimated)
    ensures AtMost(certified, estimated)
  {
    if certified.At? {
      var (kept, total) := RecallAt(certified, scores);
      if total > 0 {
        LowerBoundIsBelow(m, kept, total, Alpha(confidence, scores));
      }
      assert MeetsAt(target, certified, scores);
      assert Allowed(None, certified.score);
    }
  }

  /** A finite certified floor is reported with a bound that clears the target. */
  lemma CertifiedFloorMeetsTarget(m: Numerics, target: real, confidence: real, scores: SampledScores, floor: Floor)
    requires m.Sound() && confidence <= 1.0 && HighestCertified(m, target, confidence, scores, floor) && floor.At?
    ensures Certifies(m, target, 1.0 - confidence, floor, scores)
  {
    ShareIsSmaller(1.0 - confidence, |Candidates(scores)|);
    LargerAlphaCertifies(m, target, Alpha(confidence, scores), 1.0 - confidence, floor, scores);
  }

  lemma WholeShare(r: real)
    requires r > 0.0
    ensures r / r == 1.0
  {
  }

  lemma RejectsAtFullRecall(square: real, n: real, z: real)
    requires square == z * z && n >= 9.0 * square
    ensures Rejects(1.0, n + 1.0, z, 0.9)
  {
    assert (1.0 - 0.9) * (1.0 - 0.9) * (n + 1.0) == (n + 1.0) / 100.0;
    assert z * z * (0.9 * (1.0 - 0.9)) == square * 9.0 / 100.0;
  }

  /** Floors alone do not compare: with `n` unindexed positives and one scored at 0.5 the certified
      floor is 0.5, above the default the estimate falls back to, and keeps the same matches. */
  lemma PassthroughCanPutCertifiedAbove(m: Numerics, confidence: real, n: nat)
    requires m.Sound() && 0.5 <= confidence <= 1.0 && n >= 9
    requires var z := m.quantile(confidence); n as real >= 9.0 * (z * z)
    ensures
      var scores := SampledScores([0.5], n, 0, [], n + 1);
      && GreatestFloor(0.9, Cap(0.9, 0.35, scores), scores, At(0.35))
      && HighestCertified(m, 0.9, confidence, scores, At(0.5))
  {
    var scores := SampledScores([0.5], n, 0, [], n + 1);
    assert scores.positive[1..] == [];
    assert RecallAt(At(0.35), scores) == (n + 1, n + 1) == RecallAt(At(0.5), scores);
    assert Candidates(scores) == {0.5} by {
      assert 0.5 in scores.positive;
      assert 0.5 in scores.positive + scores.unverified;
    }
    assert Alpha(confidence, scores) == 1.0 - confidence;
    var z, r := m.quantile(confidence), (n + 1) as real;
    assert 1.0 - (1.0 - confidence) == confidence;
    WholeShare(r);
    LowerBoundInvertsScoreTest(m, n + 1, n + 1, 1.0 - confidence, 0.9);
    RejectsAtFullRecall(z * z, n as real, z);
    assert Rejects(1.0, r, z, 0.9);
    TargetAsProduct(n + 1, n + 1, 0.9);
  }
}

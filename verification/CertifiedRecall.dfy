/**
 What certifying costs in matches. The recall a calibration reports for its floor is the
 worst case's; whether certifying can report less than estimating is decided by the sample.
 */
module CertifiedRecall {
  import opened Wrappers
  import opened Wilson
  import opened Calibrate
  import opened CalibrationSearch

  function Recall(floor: Floor, scores: SampledScores): real {
    var (kept, total) := RecallAt(floor, scores);
    if total == 0 then 1.0 else kept as real / total as real
  }

  lemma RecallIsShare(floor: Floor, scores: SampledScores)
    ensures 0.0 <= Recall(floor, scores) <= 1.0
  {
    var (kept, total) := RecallAt(floor, scores);
    if total > 0 {
      Proportion(kept, total);
    }
  }

  /** Lowering a floor never lowers the recall reported for it. */
  lemma RecallFalls(low: Floor, high: Floor, scores: SampledScores)
    requires AtMost(low, high)
    ensures Recall(high, scores) <= Recall(low, scores)
  {
    RecallIsShare(low, scores);
    RecallIsShare(high, scores);
    LowerMeets(Recall(high, scores), low, high, scores);
  }

  /** A floor the bound clears meets the target, when the bound errs on the low side. */
  lemma CertifiedMeets(m: Numerics, target: real, alpha: real, floor: Floor, scores: SampledScores)
    requires m.Sound() && alpha <= 0.5 && Certifies(m, target, alpha, floor, scores)
    ensures MeetsAt(target, floor, scores)
  {
    var (kept, total) := RecallAt(floor, scores);
    if total > 0 {
      LowerBoundIsBelow(m, kept, total, alpha);
    }
  }

  /** A candidate the estimate was not allowed to rise to, at which matches would be lost. */
  ghost predicate LosesMatches(target: real, scores: SampledScores, estimated: Floor, c: real) {
    && c in Candidates(scores) && !AtMost(At(c), estimated)
    && MeetsAt(target, At(c), scores) && Recall(At(c), scores) < Recall(estimated, scores)
  }

  ghost predicate OneSided(confidence: real, scores: SampledScores) {
    Candidates(scores) != {} ==> Alpha(confidence, scores) <= 0.5
  }

  /** A candidate above the estimate that certifies, and at which matches would be lost. */
  ghost predicate CertifiesALoss(
    m: Numerics, target: real, confidence: real, scores: SampledScores, estimated: Floor, c: real)
  {
    && c in Candidates(scores) && !AtMost(At(c), estimated)
    && Certifies(m, target, Alpha(confidence, scores), At(c), scores) && Recall(At(c), scores) < Recall(estimated, scores)
  }

  /** For one quantile and one confidence, whatever they are: the certified floor keeps no fewer
      matches exactly when no candidate above the estimate is certified and loses some. */
  lemma CertifiedKeepsNoFewerIff(
    m: Numerics, target: real, confidence: real, scores: SampledScores, certified: Floor, estimated: Floor)
    requires HighestCertified(m, target, confidence, scores, certified)
    ensures Recall(certified, scores) >= Recall(estimated, scores)
      <==> forall c :: !CertifiesALoss(m, target, confidence, scores, estimated, c)
  {
    if AtMost(certified, estimated) {
      RecallFalls(certified, estimated, scores);
    } else if Recall(certified, scores) < Recall(estimated, scores) {
      assert CertifiesALoss(m, target, confidence, scores, estimated, certified.score);
    }
    if c :| CertifiesALoss(m, target, confidence, scores, estimated, c) {
      assert certified.At? && c <= certified.score;
      RecallFalls(At(c), certified, scores);
    }
  }

  lemma CertifiedKeepsNoFewer(
    m: Numerics, target: real, confidence: real, scores: SampledScores, certified: Floor, estimated: Floor)
    requires m.Sound() && OneSided(confidence, scores)
    requires HighestCertified(m, target, confidence, scores, certified)
    requires forall c :: !LosesMatches(target, scores, estimated, c)
    ensures Recall(certified, scores) >= Recall(estimated, scores)
  {
    if AtMost(certified, estimated) {
      RecallFalls(certified, estimated, scores);
    } else {
      CertifiedMeets(m, target, Alpha(confidence, scores), certified, scores);
      assert !LosesMatches(target, scores, estimated, certified.score);
    }
  }

  lemma NothingAboveTheEstimate(target: real, scores: SampledScores, estimated: Floor)
    requires !PassthroughSuffices(target, scores) && GreatestFloor(target, None, scores, estimated)
    ensures forall c :: !LosesMatches(target, scores, estimated, c)
  {
    forall c ensures !LosesMatches(target, scores, estimated, c) {
      assert Allowed(None, c);
    }
  }

  /** Certifying never keeps fewer matches than estimating, as long as the unindexed positives
      alone fall short of the target and the corrected alpha is at most one half. */
  lemma CertifyingKeepsNoFewer(
    m: Numerics, target: real, confidence: real, defaultFloor: real, scores: SampledScores,
    estimated: Calibration, certified: Calibration)
    requires m.Sound() && target > 0.0 && OneSided(confidence, scores) && !PassthroughSuffices(target, scores)
    requires IsCalibration(m, target, None, defaultFloor, scores, estimated)
    requires IsCalibration(m, target, Some(confidence), defaultFloor, scores, certified)
    ensures certified.estimatedRecall >= estimated.estimatedRecall
  {
    NothingAboveTheEstimate(target, scores, estimated.threshold);
    if Known(scores) > 0 {
      CertifiedKeepsNoFewer(m, target, confidence, scores, certified.threshold, estimated.threshold);
    }
  }

  // ---- when the unindexed positives alone meet the target ----

  /** With a zero quantile the bound is the proportion itself. */
  lemma NoCaution(m: Numerics, k: nat, n: nat, alpha: real)
    requires m.Sound() && k <= n && n > 0 && m.quantile(1.0 - alpha) == 0.0
    ensures LowerBound(m, k, n, alpha) == k as real / n as real
  {
    var w, d, l := BoundOfSample(m, k, n, alpha);
    NoMargin(k as real / n as real, w, d, l);
  }

  /** Some floor is the highest certified one. */
  lemma HighestCertifiedExists(m: Numerics, target: real, confidence: real, scores: SampledScores) returns (floor: Floor)
    ensures HighestCertified(m, target, confidence, scores, floor)
  {
    floor := Nothing;
    if Candidates(scores) != {} {
      var all, alpha := scores.positive + scores.unverified, Alpha(confidence, scores);
      for i := 0 to |all|
        invariant floor.At? ==> floor.score in Candidates(scores) && Certifies(m, target, alpha, floor, scores)
        invariant forall j :: 0 <= j < i && all[j] in Candidates(scores) && Certifies(m, target, alpha, At(all[j]), scores)
                    ==> floor.At? && all[j] <= floor.score
      {
        if all[i] in Candidates(scores) && Certifies(m, target, alpha, At(all[i]), scores) && !AtMost(At(all[i]), floor) {
          floor := At(all[i]);
        }
      }
      forall c | c in Candidates(scores) && Certifies(m, target, alpha, At(c), scores) ensures AtMost(At(c), floor) {
        assert c in all;
      }
    }
  }

  lemma CandidateHasTotal(floor: Floor, scores: SampledScores)
    requires Candidates(scores) != {}
    ensures RecallAt(floor, scores).1 > 0
  {
    var c :| c in Candidates(scores);
    assert scores.positive != [];
  }

  /** A candidate that loses matches is certified as soon as the quantile is small enough. */
  lemma LosingIsCertified(
    m: Numerics, target: real, confidence: real, scores: SampledScores, estimated: Floor, c: real, certified: Floor)
    requires m.Sound() && (forall x :: m.quantile(x) == 0.0) && LosesMatches(target, scores, estimated, c)
    requires HighestCertified(m, target, confidence, scores, certified)
    ensures Recall(certified, scores) < Recall(estimated, scores)
  {
    var alpha := Alpha(confidence, scores);
    var (kept, total) := RecallAt(At(c), scores);
    CandidateHasTotal(At(c), scores);
    NoCaution(m, kept, total, alpha);
    assert Certifies(m, target, alpha, At(c), scores);
    assert certified.At? && c <= certified.score;
    RecallFalls(At(c), certified, scores);
  }

  /** Certifying at this confidence, with any quantile, and estimating. */
  ghost predicate BothReadings(
    root: real -> real, target: real, confidence: real, defaultFloor: real, scores: SampledScores,
    m: Numerics, estimated: Calibration, certified: Calibration)
  {
    && m.root == root && m.Sound()
    && IsCalibration(m, target, None, defaultFloor, scores, estimated)
    && IsCalibration(m, target, Some(confidence), defaultFloor, scores, certified)
  }

  ghost predicate Root(root: real -> real) {
    forall x :: x >= 0.0 ==> root(x) >= 0.0 && root(x) * root(x) == x
  }

  function Reported(m: Numerics, confidence: Option<real>, floor: Floor, scores: SampledScores): Calibration {
    var (kept, total) := RecallAt(floor, scores);
    Calibration(floor, scores.sampled, Recall(floor, scores),
                if confidence.None? then None
                else Some(if total == 0 then 1.0 else LowerBound(m, kept, total, 1.0 - confidence.value)))
  }

  lemma ReadingsExist(
    m: Numerics, target: real, confidence: real, defaultFloor: real, scores: SampledScores, estimated: Floor, certified: Floor)
    requires m.Sound() && Known(scores) > 0
    requires GreatestFloor(target, Cap(target, defaultFloor, scores), scores, estimated)
    requires HighestCertified(m, target, confidence, scores, certified)
    ensures
      BothReadings(m.root, target, confidence, defaultFloor, scores, m,
                   Reported(m, None, estimated, scores), Reported(m, Some(confidence), certified, scores))
  {
    hide GreatestFloor, HighestCertified, Numerics.Sound, LowerBound, RecallAt, Cap;
  }

  lemma SomeReadingLoses(
    root: real -> real, target: real, confidence: real, defaultFloor: real, scores: SampledScores, estimated: Floor, c: real)
    returns (m: Numerics, estimate: Calibration, certificate: Calibration)
    requires Root(root) && GreatestFloor(target, Cap(target, defaultFloor, scores), scores, estimated)
    requires LosesMatches(target, scores, estimated, c)
    ensures BothReadings(root, target, confidence, defaultFloor, scores, m, estimate, certificate)
    ensures certificate.estimatedRecall < estimate.estimatedRecall
  {
    hide GreatestFloor, HighestCertified, LowerBound, RecallAt, Cap, IsCalibration, Recall;
    m := Numerics(x => 0.0, root);
    var certified := HighestCertifiedExists(m, target, confidence, scores);
    LosingIsCertified(m, target, confidence, scores, estimated, c, certified);
    assert scores.positive != [];
    ReadingsExist(m, target, confidence, defaultFloor, scores, estimated, certified);
    estimate, certificate := Reported(m, None, estimated, scores), Reported(m, Some(confidence), certified, scores);
  }

  /** Exactly when it holds: whatever the quantile, certifying keeps no fewer matches than
      estimating, precisely if the sample has no candidate above the estimate that meets the
      target and loses matches the estimate keeps. */
  lemma CertifyingKeepsNoFewerIff(
    root: real -> real, target: real, confidence: real, defaultFloor: real, scores: SampledScores, estimated: Floor)
    requires Root(root) && OneSided(confidence, scores)
    requires GreatestFloor(target, Cap(target, defaultFloor, scores), scores, estimated)
    ensures
      (forall m, estimate, certificate {:trigger BothReadings(root, target, confidence, defaultFloor, scores, m, estimate, certificate)} ::
         BothReadings(root, target, confidence, defaultFloor, scores, m, estimate, certificate)
         ==> certificate.estimatedRecall >= estimate.estimatedRecall)
      <==> (forall c :: !LosesMatches(target, scores, estimated, c))
  {
    if c :| LosesMatches(target, scores, estimated, c) {
      var m, estimate, certificate := SomeReadingLoses(root, target, confidence, defaultFloor, scores, estimated, c);
    } else {
      forall m, estimate, certificate | BothReadings(root, target, confidence, defaultFloor, scores, m, estimate, certificate)
        ensures certificate.estimatedRecall >= estimate.estimatedRecall
      {
        GreatestFloorIsUnique(target, Cap(target, defaultFloor, scores), scores, estimated, estimate.threshold);
        if Known(scores) > 0 {
          CertifiedKeepsNoFewer(m, target, confidence, scores, certificate.threshold, estimated);
        } else {
          GreatestFloorIsUnique(target, Cap(target, defaultFloor, scores), scores, estimated, certificate.threshold);
        }
      }
    }
  }

  // ---- a sample for which it fails ----

  lemma TwoPositives(n: nat)
    ensures
      var scores := SampledScores([0.9, 0.5], n, 0, [], n + 2);
      && Candidates(scores) == {0.9, 0.5} && |Candidates(scores)| == 2
      && RecallAt(At(0.35), scores) == (n + 2, n + 2)
      && RecallAt(At(0.9), scores) == (n + 1, n + 2)
  {
    var scores := SampledScores([0.9, 0.5], n, 0, [], n + 2);
    assert scores.positive[1..] == [0.5] && [0.5][1..] == [];
    assert Kept([0.5], At(0.9)) == 0 && Kept([0.5], At(0.35)) == 1;
    assert scores.positive[0] == 0.9 && scores.positive[1] == 0.5;
    assert scores.positive + scores.unverified == [0.9, 0.5];
    assert 0.9 in scores.positive && 0.5 in scores.positive;
    assert Candidates(scores) == {0.9, 0.5};
  }

  lemma WideGapRejects(gap: real, r: real)
    requires gap >= 0.09 && gap * r == (r - 2.0) / 10.0 - 0.8
    ensures r >= 102.0 ==> gap * gap * r >= 0.09 * ((r - 2.0) / 10.0 - 0.8)
  {
    var product := gap * r;
    if r >= 102.0 {
      ScaleOrder(0.09, gap, product);
      assert gap * gap * r == gap * product;
    }
  }

  lemma GapIsWide(n: real, p: real)
    requires n >= 100.0 && p * (n + 2.0) == n + 1.0
    ensures p - 0.9 >= 0.09 && (p - 0.9) * (n + 2.0) == n / 10.0 - 0.8
  {
    DivideBy(n + 2.0, 0.99, p);
  }

  lemma RejectsAtHighRecall(n: real, p: real, square: real)
    requires n >= 100.0 && n >= 100.0 * square && p * (n + 2.0) == n + 1.0
    ensures p >= 0.9 && (p - 0.9) * (p - 0.9) * (n + 2.0) >= square * (0.9 * (1.0 - 0.9))
  {
    // The gap to the target is at least 0.09, whatever the size.
    GapIsWide(n, p);
    WideGapRejects(p - 0.9, n + 2.0);
  }

  lemma CertifiedAtHighRecall(m: Numerics, n: nat, alpha: real, z: real)
    requires m.Sound() && alpha <= 0.5 && n >= 100 && z == m.quantile(1.0 - alpha) && n as real >= 100.0 * (z * z)
    ensures LowerBound(m, n + 1, n + 2, alpha) >= 0.9
  {
    hide LowerBound, Numerics.Sound;
    var r, p := (n + 2) as real, (n + 1) as real / (n + 2) as real;
    assert p * r == (n + 1) as real;
    LowerBoundInvertsScoreTest(m, n + 1, n + 2, alpha, 0.9);
    RejectsAtHighRecall(n as real, p, z * z);
  }

  /** Positives at 0.9 and 0.5, and `n` unindexed ones. The unindexed ones alone meet 0.9, so
      the estimate stays at the default and keeps everything; with enough of them 0.9 is
      certified, which drops the match at 0.5. */
  lemma CertifyingCanKeepFewer(m: Numerics, confidence: real, n: nat)
    requires m.Sound() && 0.0 <= confidence <= 1.0 && n >= 100
    requires var z := m.quantile(1.0 - (1.0 - confidence) / 2.0); n as real >= 100.0 * (z * z)
    ensures
      var scores := SampledScores([0.9, 0.5], n, 0, [], n + 2);
      && GreatestFloor(0.9, Cap(0.9, 0.35, scores), scores, At(0.35))
      && HighestCertified(m, 0.9, confidence, scores, At(0.9))
      && Recall(At(0.9), scores) < Recall(At(0.35), scores)
  {
    var scores := SampledScores([0.9, 0.5], n, 0, [], n + 2);
    TwoPositives(n);
    var alpha := Alpha(confidence, scores);
    assert alpha == (1.0 - confidence) / 2.0;
    TargetAsProduct(n + 2, n + 2, 0.9);
    assert Certifies(m, 0.9, alpha, At(0.9), scores) by {
      CertifiedAtHighRecall(m, n, alpha, m.quantile(1.0 - alpha));
    }
    assert Recall(At(0.9), scores) < Recall(At(0.35), scores) by {
      WholeShare((n + 2) as real);
      assert (n + 1) as real / (n + 2) as real * (n + 2) as real == (n + 1) as real;
    }
  }
}

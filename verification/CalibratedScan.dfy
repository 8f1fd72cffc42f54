/**
 The calibrated path: label the sample tranche by tranche, calibrate on a learned proxy if there
 is one and on cosine if not, and scan with what was learnt.
 */
module CalibratedScan {
  import opened Wrappers
  import opened Wilson
  import opened Calibrate
  import opened CalibrationSearch
  import CertifiedRecall
  import opened LabelledRecall
  import opened IndexScan

  datatype Config = Config(target: real, confidence: Option<real>, sampleSize: nat, defaultFloor: real) {
    ghost predicate Valid() {
      0.0 < target <= 1.0
    }
  }

  /** The learned proxy: scores for the documents of the search, or nothing. */
  type Fit = seq<Label> -> Option<Scores>

  /** The labelling model, asked about one tranche. */
  type Ask = seq<Hash> -> seq<Label>

  /** The calibration came from `judged`, none of which the proxy was fitted to: a proxy that scores
      every document of the search is used, on the half it was not fitted to, and cosine otherwise. */
  ghost predicate HeldOut(labels: seq<Label>, judged: seq<Label>, best: Scores, scores: Scores, fit: Fit) {
    var half := |labels| / 2;
    var learned := fit(labels[..half]);
    if learned.Some? && learned.value.Keys == best.Keys then judged == labels[half..] && scores == learned.value
    else judged == labels && scores == best
  }

  ghost predicate CalibratedOn(
    m: Numerics, config: Config, labels: seq<Label>, judged: seq<Label>, best: Scores, scores: Scores,
    indexed: set<Hash>, fit: Fit, calibration: Calibration)
  {
    && HeldOut(labels, judged, best, scores, fit) && scores.Keys == best.Keys
    && IsCalibration(m, config.target, config.confidence, config.defaultFloor, Tally(judged, scores, indexed), calibration)
  }

  /** One half of the labels fits the proxy and the other calibrates it; without a fit, cosine
      is calibrated on all of them. */
  method CalibrateOverBestProxy(
    m: Numerics, config: Config, labels: seq<Label>, best: Scores, indexed: set<Hash>, fit: Fit)
    returns (calibration: Calibration, scores: Scores, judged: seq<Label>)
    requires config.Valid()
    ensures CalibratedOn(m, config, labels, judged, best, scores, indexed, fit, calibration)
  {
    var training, heldOut := labels[..|labels| / 2], labels[|labels| / 2..];
    var learned := fit(training);
    if learned.Some? && learned.value.Keys == best.Keys {
      var counted := ScoreLabels(heldOut, learned.value, indexed);
      calibration := CalibrateThreshold(m, config.target, config.confidence, config.defaultFloor, counted);
      return calibration, learned.value, heldOut;
    }
    var counted := ScoreLabels(labels, best, indexed);
    calibration := CalibrateThreshold(m, config.target, config.confidence, config.defaultFloor, counted);
    return calibration, best, labels;
  }

  predicate Settled(config: Config, calibration: Calibration) {
    config.confidence.None? || calibration.Meets(config.target)
  }

  /** What one attempt learns: a calibration, with the scores and labels behind it. */
  datatype Attempt = Attempt(calibration: Calibration, scores: Scores, judged: seq<Label>)

  ghost predicate LearntFrom(
    m: Numerics, config: Config, labels: seq<Label>, best: Scores, indexed: set<Hash>, fit: Fit, attempt: Attempt)
  {
    CalibratedOn(m, config, labels, attempt.judged, best, attempt.scores, indexed, fit, attempt.calibration)
  }

  /** An empty sample settles at once: recall is vacuously met. */
  lemma NoLabelsSettle(m: Numerics, config: Config, best: Scores, indexed: set<Hash>, fit: Fit, attempt: Attempt)
    requires config.Valid() && LearntFrom(m, config, [], best, indexed, fit, attempt)
    ensures Settled(config, attempt.calibration)
  {
    assert attempt.judged == [];
  }

  /** Without a confidence an attempt is as good as it gets; with one, its bound must clear the target. */
  ghost predicate GoodEnough(config: Config, attempt: Attempt) {
    config.confidence.Some? ==>
      attempt.calibration.certifiedRecall.Some? && attempt.calibration.certifiedRecall.value >= config.target
  }

  lemma SettledIsGoodEnough(
    m: Numerics, config: Config, labels: seq<Label>, best: Scores, indexed: set<Hash>, fit: Fit, attempt: Attempt)
    requires LearntFrom(m, config, labels, best, indexed, fit, attempt)
    ensures Settled(config, attempt.calibration) <==> GoodEnough(config, attempt)
  {
  }

  method Try(m: Numerics, config: Config, labels: seq<Label>, best: Scores, indexed: set<Hash>, fit: Fit)
    returns (attempt: Attempt, settled: bool)
    requires config.Valid()
    ensures LearntFrom(m, config, labels, best, indexed, fit, attempt)
    ensures settled <==> GoodEnough(config, attempt)
    ensures config.confidence.None? || labels == [] ==> settled
  {
    var calibration, scores, judged := CalibrateOverBestProxy(m, config, labels, best, indexed, fit);
    attempt := Attempt(calibration, scores, judged);
    settled := config.confidence.None? || calibration.Meets(config.target);
    SettledIsGoodEnough(m, config, labels, best, indexed, fit, attempt);
    if labels == [] {
      NoLabelsSettle(m, config, best, indexed, fit, attempt);
    }
  }

  // ---- tranche after tranche ----

  /** Up to `at`, or to the end if that comes first. */
  function UpTo(at: nat, most: nat): (n: nat)
    ensures n <= at && n <= most && (n == at || n == most)
  {
    if at < most then at else most
  }

  /** The answers about slice `t` of the pool stand from `ends[t]` to `ends[t + 1]`. */
  ghost predicate TrancheAt(ask: Ask, pool: seq<Hash>, size: nat, labels: seq<Label>, ends: seq<nat>, t: nat) {
    && t + 1 < |ends| && ends[t] <= ends[t + 1] <= |labels|
    && var from, to := UpTo(t * size, |pool|), UpTo((t + 1) * size, |pool|);
       from <= to && labels[ends[t]..ends[t + 1]] == ask(pool[from..to])
  }

  /** The labels are the answers about one slice of the pool after another, `size` documents each and
      the last cut at the end. */
  ghost predicate InTranches(ask: Ask, pool: seq<Hash>, size: nat, labels: seq<Label>, ends: seq<nat>) {
    && |ends| > 0 && ends[0] == 0 && ends[|ends| - 1] == |labels|
    && forall t: nat {:trigger TrancheAt(ask, pool, size, labels, ends, t)} :: t + 1 < |ends| ==>
         TrancheAt(ask, pool, size, labels, ends, t)
  }

  /** Attempt `t` knew the labels of the first `t + 1` slices, and there was something to label. */
  ghost predicate AttemptAt(
    m: Numerics, config: Config, pool: seq<Hash>, best: Scores, indexed: set<Hash>, fit: Fit,
    labels: seq<Label>, ends: seq<nat>, attempt: Attempt, t: nat)
  {
    && t + 1 < |ends| && ends[t + 1] <= |labels| && t * config.sampleSize < |pool|
    && LearntFrom(m, config, labels[..ends[t + 1]], best, indexed, fit, attempt)
  }

  /** What each attempt knew, and that only the last one could be the last. */
  ghost predicate IsLearning(
    m: Numerics, config: Config, pool: seq<Hash>, best: Scores, indexed: set<Hash>, fit: Fit, ask: Ask,
    labels: seq<Label>, ends: seq<nat>, attempts: seq<Attempt>)
  {
    && |ends| == |attempts| + 1 && InTranches(ask, pool, config.sampleSize, labels, ends)
    && (forall t :: 0 <= t < |attempts| ==> AttemptAt(m, config, pool, best, indexed, fit, labels, ends, attempts[t], t))
    && (forall t :: 0 <= t < |attempts| - 1 ==> !GoodEnough(config, attempts[t]))
  }

  /** Learning ended with the first attempt that is good enough, or with the pool. */
  ghost predicate HasLearnt(
    m: Numerics, config: Config, pool: seq<Hash>, best: Scores, indexed: set<Hash>, fit: Fit, ask: Ask,
    labels: seq<Label>, ends: seq<nat>, attempts: seq<Attempt>)
  {
    && IsLearning(m, config, pool, best, indexed, fit, ask, labels, ends, attempts) && attempts != []
    && (GoodEnough(config, attempts[|attempts| - 1]) || |attempts| * config.sampleSize >= |pool|)
  }

  lemma TrancheStays(
    ask: Ask, pool: seq<Hash>, size: nat, labels: seq<Label>, ends: seq<nat>, t: nat, more: seq<Label>, cuts: seq<nat>)
    requires TrancheAt(ask, pool, size, labels, ends, t) && labels <= more && ends <= cuts
    ensures TrancheAt(ask, pool, size, more, cuts, t)
  {
    assert more[ends[t]..ends[t + 1]] == labels[ends[t]..ends[t + 1]];
  }

  lemma OneMoreTranche(
    ask: Ask, pool: seq<Hash>, size: nat, labels: seq<Label>, ends: seq<nat>, from: nat, to: nat)
    requires InTranches(ask, pool, size, labels, ends) && from <= to <= |pool|
    requires from == UpTo((|ends| - 1) * size, |pool|) && to == UpTo(|ends| * size, |pool|)
    ensures
      var answers := ask(pool[from..to]);
      InTranches(ask, pool, size, labels + answers, ends + [|labels| + |answers|])
  {
    var answers, last := ask(pool[from..to]), |ends| - 1;
    var more, cuts := labels + answers, ends + [|labels| + |answers|];
    assert more[cuts[last]..cuts[last + 1]] == answers;
    assert TrancheAt(ask, pool, size, more, cuts, last);
    hide UpTo;
    forall t: nat | t + 1 < |cuts| ensures TrancheAt(ask, pool, size, more, cuts, t) {
      if t < last {
        TrancheStays(ask, pool, size, labels, ends, t, more, cuts);
      }
    }
  }

  lemma AttemptStays(
    m: Numerics, config: Config, pool: seq<Hash>, best: Scores, indexed: set<Hash>, fit: Fit,
    labels: seq<Label>, ends: seq<nat>, attempt: Attempt, t: nat, more: seq<Label>, cuts: seq<nat>)
    requires AttemptAt(m, config, pool, best, indexed, fit, labels, ends, attempt, t) && labels <= more && ends <= cuts
    ensures AttemptAt(m, config, pool, best, indexed, fit, more, cuts, attempt, t)
  {
    hide LearntFrom;
    assert more[..ends[t + 1]] == labels[..ends[t + 1]];
  }

  lemma NewestAttempt(
    m: Numerics, config: Config, pool: seq<Hash>, best: Scores, indexed: set<Hash>, fit: Fit,
    labels: seq<Label>, ends: seq<nat>, attempt: Attempt, t: nat)
    requires |ends| == t + 2 && ends[t + 1] == |labels| && t * config.sampleSize < |pool|
    requires LearntFrom(m, config, labels, best, indexed, fit, attempt)
    ensures AttemptAt(m, config, pool, best, indexed, fit, labels, ends, attempt, t)
  {
    hide LearntFrom;
    assert labels[..|labels|] == labels;
  }

  lemma OneMoreAttempt(
    m: Numerics, config: Config, pool: seq<Hash>, best: Scores, indexed: set<Hash>, fit: Fit, ask: Ask,
    labels: seq<Label>, ends: seq<nat>, attempts: seq<Attempt>, from: nat, to: nat, attempt: Attempt)
    requires IsLearning(m, config, pool, best, indexed, fit, ask, labels, ends, attempts)
    requires attempts != [] ==> !GoodEnough(config, attempts[|attempts| - 1])
    requires from == |attempts| * config.sampleSize < |pool| && from <= to <= |pool|
    requires to == UpTo((|attempts| + 1) * config.sampleSize, |pool|)
    requires LearntFrom(m, config, labels + ask(pool[from..to]), best, indexed, fit, attempt)
    ensures
      var answers := ask(pool[from..to]);
      IsLearning(m, config, pool, best, indexed, fit, ask, labels + answers, ends + [|labels| + |answers|], attempts + [attempt])
  {
    hide InTranches, LearntFrom, GoodEnough, AttemptAt, UpTo;
    var answers, last := ask(pool[from..to]), |attempts|;
    var more, cuts, tries := labels + answers, ends + [|labels| + |answers|], attempts + [attempt];
    OneMoreTranche(ask, pool, config.sampleSize, labels, ends, from, to);
    NewestAttempt(m, config, pool, best, indexed, fit, more, cuts, attempt, last);
    forall t | 0 <= t < |tries| ensures AttemptAt(m, config, pool, best, indexed, fit, more, cuts, tries[t], t) {
      if t < last {
        AttemptStays(m, config, pool, best, indexed, fit, labels, ends, attempts[t], t, more, cuts);
      }
    }
  }

  lemma NextTranche(t: nat, size: nat, most: nat)
    requires t * size < most
    ensures (t + 1) * size == t * size + size && UpTo(t * size, most) == t * size
    ensures size > 0 ==> UpTo((t + 1) * size, most) > t * size
  {
  }

  lemma LastLearntFromAll(
    m: Numerics, config: Config, pool: seq<Hash>, best: Scores, indexed: set<Hash>, fit: Fit, ask: Ask,
    labels: seq<Label>, ends: seq<nat>, attempts: seq<Attempt>)
    requires IsLearning(m, config, pool, best, indexed, fit, ask, labels, ends, attempts) && attempts != []
    ensures LearntFrom(m, config, labels, best, indexed, fit, attempts[|attempts| - 1])
  {
    hide LearntFrom;
    var last := |attempts| - 1;
    assert AttemptAt(m, config, pool, best, indexed, fit, labels, ends, attempts[last], last);
    assert labels[..|labels|] == labels;
  }

  lemma LearnsOneMore(
    m: Numerics, config: Config, pool: seq<Hash>, best: Scores, indexed: set<Hash>, fit: Fit, ask: Ask,
    labels: seq<Label>, ends: seq<nat>, attempts: seq<Attempt>, from: nat, to: nat, attempt: Attempt)
    requires IsLearning(m, config, pool, best, indexed, fit, ask, labels, ends, attempts)
    requires attempts != [] ==> !GoodEnough(config, attempts[|attempts| - 1])
    requires from == UpTo(|attempts| * config.sampleSize, |pool|) < |pool|
    requires to == UpTo(from + config.sampleSize, |pool|)
    requires LearntFrom(m, config, labels + ask(pool[from..to]), best, indexed, fit, attempt)
    ensures to == UpTo((|attempts| + 1) * config.sampleSize, |pool|)
    ensures
      var answers := ask(pool[from..to]);
      IsLearning(m, config, pool, best, indexed, fit, ask, labels + answers, ends + [|labels| + |answers|], attempts + [attempt])
  {
    hide IsLearning, LearntFrom, GoodEnough;
    NextTranche(|attempts|, config.sampleSize, |pool|);
    OneMoreAttempt(m, config, pool, best, indexed, fit, ask, labels, ends, attempts, from, to, attempt);
  }

  lemma NothingLearnt(m: Numerics, config: Config, pool: seq<Hash>, best: Scores, indexed: set<Hash>, fit: Fit, ask: Ask)
    ensures IsLearning(m, config, pool, best, indexed, fit, ask, [], [0], [])
    ensures 0 == UpTo(0 * config.sampleSize, |pool|)
  {
  }

  /** Tranche after tranche, until an attempt settles or the pool runs out. */
  method LearnFloor(
    m: Numerics, config: Config, pool: seq<Hash>, best: Scores, indexed: set<Hash>, fit: Fit, ask: Ask)
    returns (attempt: Option<Attempt>, ghost labels: seq<Label>, ghost ends: seq<nat>, ghost attempts: seq<Attempt>)
    requires config.Valid() && ask([]) == []
    ensures attempt.None? <==> pool == []
    ensures attempt.None? ==> labels == []
    ensures attempt.Some? ==>
      && HasLearnt(m, config, pool, best, indexed, fit, ask, labels, ends, attempts)
      && attempt.value == attempts[|attempts| - 1]
    ensures attempt.Some? && config.confidence.None? ==> |attempts| == 1
  {
    hide LearntFrom, IsLearning, GoodEnough;
    var soFar: seq<Label>, labelled: nat := [], 0;
    attempt, labels, ends, attempts := None, [], [0], [];
    NothingLearnt(m, config, pool, best, indexed, fit, ask);
    while labelled < |pool|
      invariant labels == soFar && IsLearning(m, config, pool, best, indexed, fit, ask, labels, ends, attempts)
      invariant labelled == UpTo(|attempts| * config.sampleSize, |pool|)
      invariant attempts == [] ==> attempt.None? && labels == [] && labelled == 0
      invariant attempts != [] ==> attempt == Some(attempts[|attempts| - 1]) && !GoodEnough(config, attempt.value)
      invariant attempts != [] ==> pool != [] && config.confidence.Some? && config.sampleSize > 0
      decreases |pool| - labelled
    {
      var tranche := UpTo(labelled + config.sampleSize, |pool|);
      var answers := ask(pool[labelled..tranche]);
      if config.sampleSize == 0 {
        assert pool[labelled..tranche] == [] && soFar == [];
      }
      soFar := soFar + answers;
      var outcome, settled := Try(m, config, soFar, best, indexed, fit);
      LearnsOneMore(m, config, pool, best, indexed, fit, ask, labels, ends, attempts, labelled, tranche, outcome);
      ends, labels, attempts := ends + [|labels| + |answers|], labels + answers, attempts + [outcome];
      attempt, labelled := Some(outcome), tranche;
      if settled {
        break;
      }
    }
  }

  /** Whichever proxy was used: for every way the failed labels could turn out, the scan keeps at
      least the reported share of the judged sample's matches. */
  lemma ReportedRecallIsReal(
    m: Numerics, config: Config, labels: seq<Label>, best: Scores, indexed: set<Hash>, fit: Fit, attempt: Attempt, truth: seq<bool>)
    requires LearntFrom(m, config, labels, best, indexed, fit, attempt) && Truth(attempt.judged, truth)
    ensures attempt.calibration.estimatedRecall
         <= ScanRecall(attempt.judged, truth, attempt.calibration.threshold, attempt.scores, indexed)
  {
    var floor := attempt.calibration.threshold;
    RecallIsNoWorse(attempt.judged, truth, floor, attempt.scores, indexed);
    assert attempt.calibration.estimatedRecall == WorstRecall(attempt.judged, floor, attempt.scores, indexed);
  }

  /** Without a confidence, a floor that prunes anything meets the target on the judged sample,
      however the failed labels turn out. */
  lemma EstimatedScanMeetsTarget(
    m: Numerics, config: Config, labels: seq<Label>, best: Scores, indexed: set<Hash>, fit: Fit, attempt: Attempt, truth: seq<bool>)
    requires config.Valid() && config.confidence.None? && attempt.calibration.threshold.At?
    requires LearntFrom(m, config, labels, best, indexed, fit, attempt) && Truth(attempt.judged, truth)
    ensures ScanRecall(attempt.judged, truth, attempt.calibration.threshold, attempt.scores, indexed) >= config.target
  {
    ReportedRecallIsReal(m, config, labels, best, indexed, fit, attempt, truth);
    assert MeetsAt(config.target, attempt.calibration.threshold, Tally(attempt.judged, attempt.scores, indexed));
  }

  /** With one, a certified floor that prunes anything meets the target too, as long as the
      corrected alpha is at most one half. */
  lemma CertifiedScanMeetsTarget(
    m: Numerics, config: Config, labels: seq<Label>, best: Scores, indexed: set<Hash>, fit: Fit, attempt: Attempt, truth: seq<bool>)
    requires m.Sound() && config.Valid() && config.confidence.Some? && attempt.calibration.threshold.At?
    requires LearntFrom(m, config, labels, best, indexed, fit, attempt) && Truth(attempt.judged, truth)
    requires CertifiedRecall.OneSided(config.confidence.value, Tally(attempt.judged, attempt.scores, indexed))
    ensures ScanRecall(attempt.judged, truth, attempt.calibration.threshold, attempt.scores, indexed) >= config.target
  {
    var counted, floor := Tally(attempt.judged, attempt.scores, indexed), attempt.calibration.threshold;
    ReportedRecallIsReal(m, config, labels, best, indexed, fit, attempt, truth);
    if Known(counted) > 0 {
      CertifiedRecall.CertifiedMeets(m, config.target, Alpha(config.confidence.value, counted), floor, counted);
    }
    assert MeetsAt(config.target, floor, counted);
  }

  /** What is reported as certified is a lower bound of the scan's recall as well, for every truth. */
  lemma CertifiedRecallIsReal(
    m: Numerics, config: Config, labels: seq<Label>, best: Scores, indexed: set<Hash>, fit: Fit, attempt: Attempt, truth: seq<bool>)
    requires m.Sound() && config.confidence.Some? && config.confidence.value >= 0.5
    requires LearntFrom(m, config, labels, best, indexed, fit, attempt) && Truth(attempt.judged, truth)
    ensures attempt.calibration.certifiedRecall.Some?
    ensures attempt.calibration.certifiedRecall.value
         <= ScanRecall(attempt.judged, truth, attempt.calibration.threshold, attempt.scores, indexed)
  {
    var (kept, total) := RecallAt(attempt.calibration.threshold, Tally(attempt.judged, attempt.scores, indexed));
    ReportedRecallIsReal(m, config, labels, best, indexed, fit, attempt, truth);
    if total > 0 {
      LowerBoundIsBelow(m, kept, total, 1.0 - config.confidence.value);
    }
  }

  /** The documents let through: scored at the calibrated floor or above. */
  ghost predicate LetsThrough(chunks: Buckets, attempt: Attempt) {
    forall doc :: doc in chunks <==> doc in attempt.scores && Keeps(attempt.calibration.threshold, attempt.scores[doc])
  }

  lemma RetainedAreLetThrough(
    hits: seq<ChunkHit>, n: nat, every: Buckets, best: Scores, attempt: Attempt)
    requires IsBucketing(hits, n, every) && IsBest(hits, best) && attempt.scores.Keys == best.Keys
    ensures LetsThrough(Retain(every, attempt.scores, attempt.calibration.threshold), attempt)
  {
    forall doc ensures doc in every <==> doc in attempt.scores {
      assert BucketOf(hits, n, every, doc);
      assert doc in attempt.scores <==> doc in best.Keys;
    }
  }

  /** Every document let through carries its best chunks, at most `n`, whatever scored it. */
  ghost predicate CarriesEvidence(hits: seq<ChunkHit>, n: nat, chunks: Buckets) {
    forall doc :: doc in chunks ==> BestChunks(hits, doc, n, chunks[doc])
  }

  lemma RetainedCarryEvidence(hits: seq<ChunkHit>, n: nat, every: Buckets, scores: Scores, floor: Floor)
    requires IsBucketing(hits, n, every)
    ensures CarriesEvidence(hits, n, Retain(every, scores, floor))
  {
    forall doc | doc in Retain(every, scores, floor) ensures BestChunks(hits, doc, n, Retain(every, scores, floor)[doc]) {
      assert BucketOf(hits, n, every, doc);
      FirstTextsAreBest(hits, doc, n);
    }
  }

  /** Nothing labelled, so no match of the sample can be missed: the default floor, at full recall. */
  function VacuouslyMet(config: Config): Calibration {
    Calibration(At(config.defaultFloor), 0, 1.0, if config.confidence.Some? then Some(1.0) else None)
  }

  lemma NothingToLabel(m: Numerics, config: Config, calibration: Calibration)
    requires IsCalibration(m, config.target, config.confidence, config.defaultFloor, NO_SCORES, calibration)
    ensures calibration == VacuouslyMet(config)
  {
    var cap := Cap(config.target, config.defaultFloor, NO_SCORES);
    assert RecallAt(calibration.threshold, NO_SCORES) == (0, 0);
    assert GreatestFloor(config.target, cap, NO_SCORES, At(config.defaultFloor));
    GreatestFloorIsUnique(config.target, cap, NO_SCORES, calibration.threshold, At(config.defaultFloor));
  }

  /** The whole calibrated path: one search without a floor serves the calibration and the
      evidence. With nothing to label, recall is vacuously met at the default floor. */
  method CalibratedPrefilter(
    m: Numerics, config: Config, hits: seq<ChunkHit>, indexed: set<Hash>, chunksPerDoc: nat,
    pool: seq<Hash>, fit: Fit, ask: Ask)
    returns (result: Prefilter, ghost best: Scores, ghost attempt: Attempt,
             ghost labels: seq<Label>, ghost ends: seq<nat>, ghost attempts: seq<Attempt>)
    requires config.Valid() && BestFirst(hits) && ask([]) == []
    ensures IsBest(hits, best)
    ensures result.indexed == indexed && LetsThrough(result.chunks, attempt)
    ensures CarriesEvidence(hits, chunksPerDoc, result.chunks)
    ensures pool != [] ==>
      && HasLearnt(m, config, pool, best, indexed, fit, ask, labels, ends, attempts)
      && attempt == attempts[|attempts| - 1] && (config.confidence.None? ==> |attempts| == 1)
      && LearntFrom(m, config, labels, best, indexed, fit, attempt)
    ensures pool == [] ==> labels == [] && attempt == Attempt(VacuouslyMet(config), best, [])
  {
    var perDocBest := PerDocBest(hits);
    best := perDocBest;
    var learnt;
    learnt, labels, ends, attempts := LearnFloor(m, config, pool, perDocBest, indexed, fit, ask);
    var calibration, scores;
    if learnt.Some? {
      calibration, scores := learnt.value.calibration, learnt.value.scores;
      attempt := learnt.value;
      LastLearntFromAll(m, config, pool, best, indexed, fit, ask, labels, ends, attempts);
    } else {
      calibration := CalibrateThreshold(m, config.target, config.confidence, config.defaultFloor, NO_SCORES);
      scores := perDocBest;
      NothingToLabel(m, config, calibration);
      attempt := Attempt(calibration, perDocBest, []);
    }
    var every := BucketChunks(hits, chunksPerDoc);
    RetainedAreLetThrough(hits, chunksPerDoc, every, best, attempt);
    RetainedCarryEvidence(hits, chunksPerDoc, every, scores, calibration.threshold);
    result := Prefilter(Retain(every, scores, calibration.threshold), indexed);
  }
}

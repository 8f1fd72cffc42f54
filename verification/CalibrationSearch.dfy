/** The searches behind `calibrate_threshold`, against what each reading must return. */
module CalibrationSearch {
  import opened Wrappers
  import opened Wilson
  import opened Calibrate

  ghost predicate Descending(s: seq<real>) {
    forall i, j :: 0 <= i < j < |s| ==> s[i] >= s[j]
  }

  ghost predicate StrictlyDescending(s: seq<real>) {
    forall i, j :: 0 <= i < j < |s| ==> s[i] > s[j]
  }

  lemma InsertedBelow(rest: seq<real>, s: seq<real>, x: real, top: real)
    requires multiset(rest) == multiset(s) + multiset{x} && x <= top && forall y :: y in s ==> y <= top
    ensures forall j :: 0 <= j < |rest| ==> rest[j] <= top
  {
    forall j | 0 <= j < |rest| ensures rest[j] <= top {
      assert rest[j] in multiset(rest);
      assert rest[j] == x || rest[j] in multiset(s);
      assert rest[j] == x || rest[j] in s;
    }
  }

  function Insert(x: real, s: seq<real>): (r: seq<real>)
    requires Descending(s)
    ensures Descending(r) && multiset(r) == multiset(s) + multiset{x}
  {
    if s == [] || x >= s[0] then [x] + s
    else
      assert s == [s[0]] + s[1..];
      var rest := Insert(x, s[1..]);
      InsertedBelow(rest, s[1..], x, s[0]);
      [s[0]] + rest
  }

  /** The library's descending sort. */
  function SortDescending(s: seq<real>): (r: seq<real>)
    ensures Descending(r) && multiset(r) == multiset(s)
  {
    if s == [] then []
    else
      assert s == [s[0]] + s[1..];
      Insert(s[0], SortDescending(s[1..]))
  }

  lemma SameElements(a: seq<real>, b: seq<real>)
    requires multiset(a) == multiset(b)
    ensures |a| == |b| && forall x :: x in a <==> x in b
  {
    assert |multiset(a)| == |a| && |multiset(b)| == |b|;
    forall x ensures x in a <==> x in b {
      assert x in a <==> x in multiset(a);
      assert x in b <==> x in multiset(b);
    }
  }

  lemma KeptWithout(b: seq<real>, j: nat, floor: Floor)
    requires j < |b|
    ensures Kept(b, floor) == Kept([b[j]], floor) + Kept(b[..j] + b[j + 1..], floor)
  {
    assert b == b[..j] + ([b[j]] + b[j + 1..]);
    KeptAppends(b[..j], [b[j]] + b[j + 1..], floor);
    KeptAppends([b[j]], b[j + 1..], floor);
    KeptAppends(b[..j], b[j + 1..], floor);
  }

  lemma MultisetWithout(b: seq<real>, j: nat)
    requires j < |b|
    ensures multiset(b[..j] + b[j + 1..]) == multiset(b) - multiset{b[j]}
  {
    assert b == b[..j] + ([b[j]] + b[j + 1..]);
  }

  lemma SameRest(a: seq<real>, b: seq<real>, j: nat)
    requires multiset(a) == multiset(b) && a != [] && j < |b| && b[j] == a[0]
    ensures multiset(a[1..]) == multiset(b[..j] + b[j + 1..])
  {
    MultisetWithout(a, 0);
    MultisetWithout(b, j);
    assert a[..0] + a[1..] == a[1..];
  }

  /** Counting does not depend on order. */
  lemma {:induction false} KeptOfPermutation(a: seq<real>, b: seq<real>, floor: Floor)
    requires multiset(a) == multiset(b)
    ensures Kept(a, floor) == Kept(b, floor)
  {
    SameElements(a, b);
    if a != [] {
      assert a[0] in a;
      var j :| 0 <= j < |b| && b[j] == a[0];
      SameRest(a, b, j);
      KeptOfPermutation(a[1..], b[..j] + b[j + 1..], floor);
      KeptWithout(b, j, floor);
      KeptAppends([a[0]], a[1..], floor);
      assert a == [a[0]] + a[1..];
    }
  }

  lemma {:induction false} NoneKept(s: seq<real>, f: real)
    requires forall x :: x in s ==> x < f
    ensures Kept(s, At(f)) == 0
  {
    if s != [] {
      assert s[0] in s && forall x :: x in s[1..] ==> x in s;
      NoneKept(s[1..], f);
    }
  }

  /** In a descending list, a floor above the item at `k` keeps at most `k` items. */
  lemma {:induction false} KeptAbove(s: seq<real>, k: nat, f: real)
    requires Descending(s) && k < |s| && f > s[k]
    ensures Kept(s, At(f)) <= k
  {
    if k == 0 {
      NoneKept(s, f);
    } else {
      KeptAbove(s[1..], k - 1, f);
    }
  }

  /** The only floors worth trying: between two neighbouring ones nothing changes. Descending. */
  method CandidateFloors(positive: seq<real>, scores: SampledScores) returns (candidates: seq<real>)
    ensures StrictlyDescending(candidates)
    ensures forall x :: x in candidates <==> x in positive || x in scores.unverified
  {
    var all := SortDescending(positive + scores.unverified);
    SameElements(all, positive + scores.unverified);
    candidates := [];
    for i := 0 to |all|
      invariant StrictlyDescending(candidates)
      invariant forall x :: x in candidates <==> x in all[..i]
      invariant i == 0 ==> candidates == []
      invariant i > 0 ==> candidates != [] && candidates[|candidates| - 1] == all[i - 1]
    {
      assert all[..i + 1] == all[..i] + [all[i]];
      if candidates == [] || candidates[|candidates| - 1] != all[i] {
        forall j | 0 <= j < |candidates| ensures candidates[j] > all[i] {
          assert candidates[j] >= candidates[|candidates| - 1];
          assert all[i - 1] >= all[i];
        }
        candidates := candidates + [all[i]];
      }
    }
    assert all[..|all|] == all;
  }

  function Ceil(x: real): int {
    -((-x).Floor)
  }

  lemma CeilIsLeast(x: real, n: int)
    ensures Ceil(x) <= n <==> x <= n as real
  {
  }

  /** The target in known positives, less those that no floor can lose. */
  function Needed(target: real, scores: SampledScores): nat {
    var all := Ceil(target * Known(scores) as real);
    if all > scores.unindexed then all - scores.unindexed else 0
  }

  /** The floor if no label had failed: the score of the last positive that is needed. `positive` is descending. */
  function PointEstimateFloor(target: real, defaultFloor: real, positive: seq<real>, scores: SampledScores): Floor {
    var needed := Needed(target, scores);
    if needed == 0 then At(defaultFloor)
    else if needed > |positive| then Nothing
    else At(positive[needed - 1])
  }

  lemma NothingNeeded(target: real, scores: SampledScores)
    ensures Needed(target, scores) == 0 <==> PassthroughSuffices(target, scores)
  {
    CeilIsLeast(target * Known(scores) as real, scores.unindexed);
  }

  lemma KeptBelowNeeded(positive: seq<real>, scores: SampledScores, needed: nat, f: real)
    requires Descending(positive) && multiset(positive) == multiset(scores.positive)
    requires needed > 0 && (needed > |positive| || f > positive[needed - 1])
    ensures RecallAt(At(f), scores).0 < needed + scores.unindexed
  {
    KeptOfPermutation(positive, scores.positive, At(f));
    if needed > |positive| {
      KeptAtMost(positive, At(f));
    } else {
      KeptAbove(positive, needed - 1, f);
    }
  }

  lemma TooFewKept(target: real, known: nat, kept: nat, total: nat)
    requires target > 0.0 && known <= total && kept <= total && kept < Ceil(target * known as real)
    ensures !MeetsTarget(kept, total, target)
  {
    var product := target * known as real;
    assert kept as real < product;
    TargetAsProduct(kept, total, target);
    ScaleOrder(known as real, total as real, target);
  }

  /** No floor above the point estimate and within the cap meets the target. */
  lemma NoneAbovePointEstimate(target: real, defaultFloor: real, positive: seq<real>, scores: SampledScores, f: real)
    requires target > 0.0 && Descending(positive) && multiset(positive) == multiset(scores.positive)
    requires |positive| == |scores.positive|
    requires !AtMost(At(f), PointEstimateFloor(target, defaultFloor, positive, scores))
    requires Allowed(Cap(target, defaultFloor, scores), f)
    ensures !MeetsAt(target, At(f), scores)
  {
    NothingNeeded(target, scores);
    KeptBelowNeeded(positive, scores, Needed(target, scores), f);
    TooFewKept(target, Known(scores), RecallAt(At(f), scores).0, RecallAt(At(f), scores).1);
  }

  /** With no candidate meeting the target among those from `f` up to the ceiling, neither does
      `f`: nothing changes between two neighbouring candidates. */
  lemma {:induction false} BetweenCandidates(
    target: real, scores: SampledScores, candidates: seq<real>, i: nat, top: real, f: real)
    requires StrictlyDescending(candidates) && i <= |candidates| && f < top
    requires forall x :: Scored(scores, x) ==> x in candidates
    requires i < |candidates| ==> candidates[i] < f
    requires forall j :: 0 <= j < i && candidates[j] < top ==> !MeetsAt(target, At(candidates[j]), scores)
    requires !MeetsAt(target, At(top), scores)
    ensures !MeetsAt(target, At(f), scores)
  {
    if i == 0 || candidates[i - 1] >= top {
      forall x | Scored(scores, x) && x >= f ensures x >= top {
        var j :| 0 <= j < |candidates| && candidates[j] == x;
      }
      SameRecall(At(f), At(top), scores);
    } else if candidates[i - 1] >= f {
      forall x | Scored(scores, x) && x >= f ensures x >= candidates[i - 1] {
        var j :| 0 <= j < |candidates| && candidates[j] == x;
      }
      SameRecall(At(f), At(candidates[i - 1]), scores);
    } else {
      BetweenCandidates(target, scores, candidates, i - 1, top, f);
    }
  }

  /** The estimate: start from the floor that ignores failed labels and, where counting them as
      badly as possible misses the target, step down to the next candidate that does not. */
  method EstimatedFloor(target: real, defaultFloor: real, positive: seq<real>, scores: SampledScores) returns (floor: Floor)
    requires target > 0.0 && Descending(positive) && multiset(positive) == multiset(scores.positive)
    ensures GreatestFloor(target, Cap(target, defaultFloor, scores), scores, floor)
  {
    SameElements(positive, scores.positive);
    var cap := Cap(target, defaultFloor, scores);
    floor := PointEstimateFloor(target, defaultFloor, positive, scores);
    forall f | !AtMost(At(f), floor) && Allowed(cap, f) ensures !MeetsAt(target, At(f), scores) {
      NoneAbovePointEstimate(target, defaultFloor, positive, scores, f);
    }
    if floor == Nothing || MeetsAt(target, floor, scores) {
      // Nothing is below minus infinity, so no candidate can be tried.
      return;
    }
    var top := floor.score;
    var candidates := CandidateFloors(positive, scores);
    var i := 0;
    while i < |candidates|
      invariant 0 <= i <= |candidates|
      invariant forall j :: 0 <= j < i && candidates[j] < top ==> !MeetsAt(target, At(candidates[j]), scores)
    {
      if candidates[i] < top && MeetsAt(target, At(candidates[i]), scores) {
        forall f | candidates[i] < f && Allowed(cap, f) ensures !MeetsAt(target, At(f), scores) {
          if f < top {
            BetweenCandidates(target, scores, candidates, i, top, f);
          }
        }
        return At(candidates[i]);
      }
      i := i + 1;
    }
    forall f | Allowed(cap, f) ensures !MeetsAt(target, At(f), scores) {
      if f < top {
        BetweenCandidates(target, scores, candidates, |candidates|, top, f);
      }
    }
    floor := Nothing;
  }

  lemma {:induction false} DistinctCount(s: seq<real>)
    requires StrictlyDescending(s)
    ensures |set x | x in s| == |s|
  {
    if s != [] {
      DistinctCount(s[1..]);
      assert (set x | x in s) == {s[0]} + set x | x in s[1..];
    }
  }

  /** Scores of failed labels above every positive are no candidates. */
  method UpToBestPositive(positive: seq<real>, all: seq<real>) returns (candidates: seq<real>)
    requires StrictlyDescending(all)
    ensures StrictlyDescending(candidates)
    ensures forall x :: x in candidates <==> x in all && positive != [] && x <= positive[0]
  {
    candidates := [];
    for i := 0 to |all|
      invariant StrictlyDescending(candidates)
      invariant forall x :: x in candidates <==> x in all[..i] && positive != [] && x <= positive[0]
    {
      assert all[..i + 1] == all[..i] + [all[i]];
      if positive != [] && all[i] <= positive[0] {
        forall j | 0 <= j < |candidates| ensures candidates[j] > all[i] {
          assert candidates[j] in candidates;
          var k :| 0 <= k < i && all[k] == candidates[j];
        }
        candidates := candidates + [all[i]];
      }
    }
    assert all[..|all|] == all;
  }

  method FirstCertified(m: Numerics, target: real, alpha: real, candidates: seq<real>, scores: SampledScores)
    returns (floor: Option<real>)
    requires StrictlyDescending(candidates)
    ensures floor.Some? ==> floor.value in candidates && Certifies(m, target, alpha, At(floor.value), scores)
    ensures forall c :: c in candidates && (floor.Some? ==> floor.value < c) ==> !Certifies(m, target, alpha, At(c), scores)
  {
    for i := 0 to |candidates|
      invariant forall j :: 0 <= j < i ==> !Certifies(m, target, alpha, At(candidates[j]), scores)
    {
      if Certifies(m, target, alpha, At(candidates[i]), scores) {
        return Some(candidates[i]);
      }
    }
    return None;
  }

  lemma SameCandidates(positive: seq<real>, scores: SampledScores, candidates: seq<real>)
    requires Descending(positive) && multiset(positive) == multiset(scores.positive)
    requires forall x :: x in candidates <==> (x in positive || x in scores.unverified) && positive != [] && x <= positive[0]
    ensures Candidates(scores) == set x | x in candidates
  {
    SameElements(positive, scores.positive);
    forall x ensures x in Candidates(scores) <==> x in candidates {
      if x in candidates {
        assert positive[0] in scores.positive;
        assert x in scores.positive + scores.unverified;
      }
      if x in Candidates(scores) {
        var p :| p in scores.positive && x <= p;
        assert p in positive;
      }
    }
  }

  /** The highest candidate floor whose corrected Wilson bound clears the target. */
  method CertifiedFloor(m: Numerics, target: real, confidence: real, positive: seq<real>, scores: SampledScores)
    returns (floor: Option<real>)
    requires Descending(positive) && multiset(positive) == multiset(scores.positive)
    ensures HighestCertified(m, target, confidence, scores, if floor.Some? then At(floor.value) else Nothing)
  {
    var all := CandidateFloors(positive, scores);
    var candidates := UpToBestPositive(positive, all);
    SameElements(positive, scores.positive);
    SameCandidates(positive, scores, candidates);
    DistinctCount(candidates);
    if candidates == [] {
      return None;
    }
    assert candidates[0] in Candidates(scores);
    floor := FirstCertified(m, target, (1.0 - confidence) / |candidates| as real, candidates, scores);
  }

  /**
   What a calibration must be. Without a confidence, or with no known positive to certify
   against, the threshold is the greatest real floor that meets the target; with one, the
   highest certified candidate, or nothing at all. The recalls it reports are the worst
   case's at that threshold.
   */
  ghost predicate IsCalibration(
    m: Numerics, target: real, confidence: Option<real>, defaultFloor: real, scores: SampledScores, calibration: Calibration)
  {
    var (kept, total) := RecallAt(calibration.threshold, scores);
    && calibration.sampledRows == scores.sampled
    && (if confidence.None? || Known(scores) == 0
        then GreatestFloor(target, Cap(target, defaultFloor, scores), scores, calibration.threshold)
        else HighestCertified(m, target, confidence.value, scores, calibration.threshold))
    && calibration.estimatedRecall == (if total == 0 then 1.0 else kept as real / total as real)
    && calibration.certifiedRecall ==
       if confidence.None? then None
       else Some(if total == 0 then 1.0 else LowerBound(m, kept, total, 1.0 - confidence.value))
  }

  method CalibrateThreshold(
    m: Numerics, target: real, confidence: Option<real>, defaultFloor: real, scores: SampledScores)
    returns (calibration: Calibration)
    requires target > 0.0
    ensures IsCalibration(m, target, confidence, defaultFloor, scores, calibration)
  {
    var positive := SortDescending(scores.positive);
    SameElements(positive, scores.positive);
    if Known(scores) == 0 && scores.unverified == [] {
      // An empty sample: any floor meets the target.
      assert MeetsAt(target, At(defaultFloor), scores);
      return Calibration(At(defaultFloor), scores.sampled, 1.0, if confidence.Some? then Some(1.0) else None);
    }
    var threshold;
    if confidence.None? || Known(scores) == 0 {
      threshold := EstimatedFloor(target, defaultFloor, positive, scores);
    } else {
      var certified := CertifiedFloor(m, target, confidence.value, positive, scores);
      threshold := if certified.Some? then At(certified.value) else Nothing;
    }
    var (kept, total) := RecallAt(threshold, scores);
    if total == 0 {
      return Calibration(threshold, scores.sampled, 1.0, if confidence.Some? then Some(1.0) else None);
    }
    return Calibration(threshold, scores.sampled, kept as real / total as real,
                       if confidence.Some? then Some(LowerBound(m, kept, total, 1.0 - confidence.value)) else None);
  }
}

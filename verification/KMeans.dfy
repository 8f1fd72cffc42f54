/**
 Lloyd's algorithm over the reals. Neither half of an iteration raises the total squared
 distance, and a run that settles leaves every point with its nearest centroid.
 */
module KMeans {
  type Vector = seq<real>

  const MAX_ITERATIONS: nat := 50

  // ---- distances ----

  function Square(x: real): (r: real)
    ensures r >= 0.0
  {
    x * x
  }

  /** Squared distance over the first `n` coordinates. */
  function DistanceUpTo(a: Vector, b: Vector, n: nat): real
    requires n <= |a| && n <= |b|
  {
    if n == 0 then 0.0 else DistanceUpTo(a, b, n - 1) + Square(a[n - 1] - b[n - 1])
  }

  /** Coordinates beyond the shorter vector are not compared. */
  function Distance(a: Vector, b: Vector): real {
    DistanceUpTo(a, b, if |a| < |b| then |a| else |b|)
  }

  lemma {:induction false} PrefixDistance(a: Vector, b: Vector, x: real, y: real, n: nat)
    requires n <= |a| && n <= |b|
    ensures DistanceUpTo(a + [x], b + [y], n) == DistanceUpTo(a, b, n)
  {
    if n > 0 {
      PrefixDistance(a, b, x, y, n - 1);
    }
  }

  lemma {:induction false} LongerPrefix(a: Vector, b: Vector, x: real, n: nat)
    requires n <= |b| <= |a|
    ensures DistanceUpTo(a + [x], b, n) == DistanceUpTo(a, b, n) && DistanceUpTo(b, a + [x], n) == DistanceUpTo(b, a, n)
  {
    if n > 0 {
      LongerPrefix(a, b, x, n - 1);
    }
  }

  /** What the distance is: nothing between empty vectors, and the square of the difference more for
      every coordinate the two have. */
  lemma DistanceAddsSquares(a: Vector, b: Vector, x: real, y: real)
    requires |a| == |b|
    ensures Distance([], []) == 0.0
    ensures Distance(a + [x], b + [y]) == Distance(a, b) + (x - y) * (x - y)
  {
    PrefixDistance(a, b, x, y, |a|);
  }

  /** Coordinates only the longer vector has count for nothing. */
  lemma LongerVectorIsCut(a: Vector, b: Vector, x: real)
    requires |b| <= |a|
    ensures Distance(a + [x], b) == Distance(a, b) && Distance(b, a + [x]) == Distance(b, a)
  {
    LongerPrefix(a, b, x, |b|);
  }

  ghost predicate Dimension(vs: seq<Vector>, d: nat) {
    forall i :: 0 <= i < |vs| ==> |vs[i]| == d
  }

  /** The closest centroid, the first of them if several are equally close. */
  ghost predicate IsNearest(point: Vector, centroids: seq<Vector>, best: nat) {
    && best < |centroids|
    && (forall i :: 0 <= i < |centroids| ==> Distance(point, centroids[best]) <= Distance(point, centroids[i]))
    && (forall i :: 0 <= i < best ==> Distance(point, centroids[best]) < Distance(point, centroids[i]))
  }

  method NearestCentroid(point: Vector, centroids: seq<Vector>) returns (best: nat)
    requires centroids != []
    ensures IsNearest(point, centroids, best)
  {
    best := 0;
    var bestDistance := Distance(point, centroids[0]);
    for i := 1 to |centroids|
      invariant best < i && bestDistance == Distance(point, centroids[best])
      invariant forall j :: 0 <= j < i ==> bestDistance <= Distance(point, centroids[j])
      invariant forall j :: 0 <= j < best ==> bestDistance < Distance(point, centroids[j])
    {
      var distance := Distance(point, centroids[i]);
      if distance < bestDistance {
        bestDistance := distance;
        best := i;
      }
    }
  }

  // ---- the cost of a clustering ----

  ghost predicate Assigns(assignments: seq<nat>, n: nat, k: nat) {
    |assignments| == n && forall i :: 0 <= i < n ==> assignments[i] < k
  }

  /** Total squared distance of the first `n` points to their centroids. */
  function CostUpTo(points: seq<Vector>, assignments: seq<nat>, centroids: seq<Vector>, n: nat): real
    requires n <= |points| && Assigns(assignments, |points|, |centroids|)
  {
    if n == 0 then 0.0
    else CostUpTo(points, assignments, centroids, n - 1) + Distance(points[n - 1], centroids[assignments[n - 1]])
  }

  function Cost(points: seq<Vector>, assignments: seq<nat>, centroids: seq<Vector>): real
    requires Assigns(assignments, |points|, |centroids|)
  {
    CostUpTo(points, assignments, centroids, |points|)
  }

  /** Moving every point to its nearest centroid costs no more than where it was. */
  lemma {:induction false} ReassigningCostsNoMore(
    points: seq<Vector>, before: seq<nat>, after: seq<nat>, centroids: seq<Vector>, n: nat)
    requires Assigns(before, |points|, |centroids|) && Assigns(after, |points|, |centroids|) && n <= |points|
    requires forall i :: 0 <= i < n ==> IsNearest(points[i], centroids, after[i])
    ensures CostUpTo(points, after, centroids, n) <= CostUpTo(points, before, centroids, n)
  {
    if n > 0 {
      ReassigningCostsNoMore(points, before, after, centroids, n - 1);
      assert IsNearest(points[n - 1], centroids, after[n - 1]);
    }
  }

  // ---- sums and counts of the clusters ----

  function Add(a: Vector, b: Vector): (r: Vector)
    requires |a| == |b|
    ensures |r| == |a| && forall j :: 0 <= j < |a| ==> r[j] == a[j] + b[j]
  {
    seq(|a|, j requires 0 <= j < |a| => a[j] + b[j])
  }

  function Zeros(d: nat): Vector {
    seq(d, _ => 0.0)
  }

  function Sums(points: seq<Vector>, assignments: seq<nat>, k: nat, d: nat, n: nat): (sums: seq<Vector>)
    requires n <= |points| && Assigns(assignments, |points|, k) && Dimension(points, d)
    ensures |sums| == k && Dimension(sums, d)
  {
    if n == 0 then seq(k, _ => Zeros(d))
    else
      var earlier, q := Sums(points, assignments, k, d, n - 1), assignments[n - 1];
      earlier[q := Add(earlier[q], points[n - 1])]
  }

  function Counts(assignments: seq<nat>, k: nat, n: nat): (counts: seq<nat>)
    requires n <= |assignments| && forall i :: 0 <= i < |assignments| ==> assignments[i] < k
    ensures |counts| == k
  {
    if n == 0 then seq(k, _ => 0)
    else
      var earlier, q := Counts(assignments, k, n - 1), assignments[n - 1];
      earlier[q := earlier[q] + 1]
  }

  /** The mean of a cluster's members; an empty cluster stays where it was. */
  ghost predicate IsMean(centroid: Vector, previous: Vector, sum: Vector, count: nat) {
    |centroid| == |sum| &&
    if count == 0 then centroid == previous
    else forall j :: 0 <= j < |sum| ==> centroid[j] * count as real == sum[j]
  }

  ghost predicate IsRecentred(points: seq<Vector>, assignments: seq<nat>, previous: seq<Vector>, d: nat, centroids: seq<Vector>)
    requires Assigns(assignments, |points|, |previous|) && Dimension(points, d)
  {
    && |centroids| == |previous|
    && forall q :: 0 <= q < |previous| ==>
         IsMean(centroids[q], previous[q], Sums(points, assignments, |previous|, d, |points|)[q],
                Counts(assignments, |previous|, |points|)[q])
  }

  method Accumulate(points: seq<Vector>, assignments: seq<nat>, k: nat, d: nat) returns (sums: seq<Vector>, counts: seq<nat>)
    requires Assigns(assignments, |points|, k) && Dimension(points, d)
    ensures sums == Sums(points, assignments, k, d, |points|) && counts == Counts(assignments, k, |points|)
  {
    sums, counts := seq(k, _ => Zeros(d)), seq(k, _ => 0);
    for i := 0 to |points|
      invariant sums == Sums(points, assignments, k, d, i) && counts == Counts(assignments, k, i)
    {
      var cluster, point := assignments[i], points[i];
      var sum := sums[cluster];
      for j := 0 to d
        invariant |sum| == d
        invariant forall l :: 0 <= l < d ==> sum[l] == sums[cluster][l] + if l < j then point[l] else 0.0
      {
        sum := sum[j := sum[j] + point[j]];
      }
      assert sum == Add(sums[cluster], point);
      sums := sums[cluster := sum];
      counts := counts[cluster := counts[cluster] + 1];
    }
  }

  method Recentre(points: seq<Vector>, assignments: seq<nat>, previous: seq<Vector>) returns (centroids: seq<Vector>)
    requires points != [] && Assigns(assignments, |points|, |previous|)
    requires Dimension(points, |points[0]|) && Dimension(previous, |points[0]|)
    ensures IsRecentred(points, assignments, previous, |points[0]|, centroids) && Dimension(centroids, |points[0]|)
  {
    var k, d := |previous|, |points[0]|;
    var sums, counts := Accumulate(points, assignments, k, d);
    centroids := [];
    for cluster := 0 to k
      invariant |centroids| == cluster && Dimension(centroids, d)
      invariant forall q :: 0 <= q < cluster ==> IsMean(centroids[q], previous[q], sums[q], counts[q])
    {
      if counts[cluster] == 0 {
        centroids := centroids + [previous[cluster]];
      } else {
        var count := counts[cluster] as real;
        var mean: Vector := [];
        for j := 0 to d
          invariant |mean| == j && forall l :: 0 <= l < j ==> mean[l] * count == sums[cluster][l]
        {
          mean := mean + [sums[cluster][j] / count];
        }
        centroids := centroids + [mean];
      }
    }
  }

  // ---- recentring costs no more ----
  // Moving a centroid from c to m changes one point's squared distance by (m-c)*(2x-m-c) in each
  // coordinate; over a cluster with sum s and count n that adds up to (m-c)*(2s-n*(m+c)), which
  // is n*(m-c)^2 when m is the mean.

  function Saving(m: real, c: real, s: real, n: real): real {
    (m - c) * (2.0 * s - n * (m + c))
  }

  function SavingUpTo(m: Vector, c: Vector, s: Vector, n: real, j: nat): real
    requires j <= |m| && j <= |c| && j <= |s|
  {
    if j == 0 then 0.0 else SavingUpTo(m, c, s, n, j - 1) + Saving(m[j - 1], c[j - 1], s[j - 1], n)
  }

  lemma SavingAdds(m: real, c: real, s: real, n: real, x: real)
    ensures Saving(m, c, s + x, n + 1.0) == Saving(m, c, s, n) + Saving(m, c, x, 1.0)
  {
    var d, e, f := m - c, 2.0 * s - n * (m + c), 2.0 * x - (m + c);
    assert 2.0 * (s + x) - (n + 1.0) * (m + c) == e + f;
    assert d * (e + f) == d * e + d * f;
  }

  lemma {:induction false} PointAdds(m: Vector, c: Vector, s: Vector, n: real, x: Vector, j: nat)
    requires j <= |m| && j <= |c| && j <= |s| == |x|
    ensures SavingUpTo(m, c, Add(s, x), n + 1.0, j) == SavingUpTo(m, c, s, n, j) + SavingUpTo(m, c, x, 1.0, j)
  {
    if j > 0 {
      PointAdds(m, c, s, n, x, j - 1);
      SavingAdds(m[j - 1], c[j - 1], s[j - 1], n, x[j - 1]);
    }
  }

  lemma OnePointSaves(m: real, c: real, x: real)
    ensures Square(x - c) - Square(x - m) == Saving(m, c, x, 1.0)
  {
  }

  /** What one point saves is the difference of its two distances. */
  lemma {:induction false} PointSaves(m: Vector, c: Vector, x: Vector, j: nat)
    requires j <= |m| && j <= |c| && j <= |x|
    ensures DistanceUpTo(x, c, j) - DistanceUpTo(x, m, j) == SavingUpTo(m, c, x, 1.0, j)
  {
    if j > 0 {
      PointSaves(m, c, x, j - 1);
      OnePointSaves(m[j - 1], c[j - 1], x[j - 1]);
    }
  }

  lemma ProductNonNegative(a: real, b: real)
    requires a >= 0.0 && b >= 0.0
    ensures a * b >= 0.0
  {
  }

  lemma MeanSaves(m: real, c: real, s: real, n: real)
    requires n >= 0.0 && m * n == s
    ensures Saving(m, c, s, n) >= 0.0
  {
    var d := m - c;
    assert 2.0 * s - n * (m + c) == n * d;
    assert d * (n * d) == n * (d * d);
    ProductNonNegative(n, d * d);
  }

  /** A centroid that stays saves nothing. */
  lemma StayingSaves(m: real, c: real, s: real, n: real)
    requires m == c
    ensures Saving(m, c, s, n) == 0.0
  {
  }

  lemma {:induction false} ClusterSaves(m: Vector, c: Vector, s: Vector, n: nat, j: nat)
    requires j <= |m| && j <= |c| && j <= |s| && IsMean(m, c, s, n)
    ensures SavingUpTo(m, c, s, n as real, j) >= 0.0
  {
    if j > 0 {
      ClusterSaves(m, c, s, n, j - 1);
      if n > 0 {
        MeanSaves(m[j - 1], c[j - 1], s[j - 1], n as real);
      } else {
        StayingSaves(m[j - 1], c[j - 1], s[j - 1], n as real);
      }
    }
  }

  /** What the first `q` clusters save together. */
  function TotalSaving(ms: seq<Vector>, cs: seq<Vector>, sums: seq<Vector>, counts: seq<nat>, d: nat, q: nat): real
    requires q <= |ms| && q <= |cs| && q <= |sums| && q <= |counts|
    requires Dimension(ms, d) && Dimension(cs, d) && Dimension(sums, d)
  {
    if q == 0 then 0.0
    else
      TotalSaving(ms, cs, sums, counts, d, q - 1)
      + SavingUpTo(ms[q - 1], cs[q - 1], sums[q - 1], counts[q - 1] as real, d)
  }

  lemma {:induction false} TotalAdds(
    ms: seq<Vector>, cs: seq<Vector>, sums: seq<Vector>, counts: seq<nat>, d: nat, q: nat, cluster: nat, x: Vector)
    requires q <= |ms| == |cs| == |sums| == |counts| && cluster < |ms| && |x| == d
    requires Dimension(ms, d) && Dimension(cs, d) && Dimension(sums, d)
    ensures
      TotalSaving(ms, cs, sums[cluster := Add(sums[cluster], x)], counts[cluster := counts[cluster] + 1], d, q)
      == TotalSaving(ms, cs, sums, counts, d, q) + if cluster < q then SavingUpTo(ms[cluster], cs[cluster], x, 1.0, d) else 0.0
  {
    if q > 0 {
      TotalAdds(ms, cs, sums, counts, d, q - 1, cluster, x);
      if cluster == q - 1 {
        PointAdds(ms[cluster], cs[cluster], sums[cluster], counts[cluster] as real, x, d);
      }
    }
  }

  lemma {:induction false} NothingSavedHere(m: Vector, c: Vector, d: nat, j: nat)
    requires j <= d && |m| == |c| == d
    ensures SavingUpTo(m, c, Zeros(d), 0.0, j) == 0.0
  {
    if j > 0 {
      NothingSavedHere(m, c, d, j - 1);
    }
  }

  lemma {:induction false} NothingSaved(ms: seq<Vector>, cs: seq<Vector>, k: nat, d: nat, q: nat)
    requires q <= |ms| == |cs| == k && Dimension(ms, d) && Dimension(cs, d)
    ensures TotalSaving(ms, cs, seq(k, _ => Zeros(d)), seq(k, _ => 0), d, q) == 0.0
  {
    if q > 0 {
      NothingSaved(ms, cs, k, d, q - 1);
      NothingSavedHere(ms[q - 1], cs[q - 1], d, d);
    }
  }

  /** The clusters' savings are the points' savings. */
  lemma {:induction false} CostDrops(
    points: seq<Vector>, assignments: seq<nat>, cs: seq<Vector>, ms: seq<Vector>, d: nat, n: nat)
    requires n <= |points| && Assigns(assignments, |points|, |cs|) && |ms| == |cs|
    requires Dimension(points, d) && Dimension(cs, d) && Dimension(ms, d)
    ensures
      CostUpTo(points, assignments, cs, n) - CostUpTo(points, assignments, ms, n)
      == TotalSaving(ms, cs, Sums(points, assignments, |cs|, d, n), Counts(assignments, |cs|, n), d, |cs|)
  {
    var k := |cs|;
    if n == 0 {
      NothingSaved(ms, cs, k, d, k);
    } else {
      var q := assignments[n - 1];
      CostDrops(points, assignments, cs, ms, d, n - 1);
      TotalAdds(ms, cs, Sums(points, assignments, k, d, n - 1), Counts(assignments, k, n - 1), d, k, q, points[n - 1]);
      PointSaves(ms[q], cs[q], points[n - 1], d);
    }
  }

  lemma {:induction false} TotalIsNonNegative(ms: seq<Vector>, cs: seq<Vector>, sums: seq<Vector>, counts: seq<nat>, d: nat, q: nat)
    requires q <= |ms| == |cs| == |sums| == |counts|
    requires Dimension(ms, d) && Dimension(cs, d) && Dimension(sums, d)
    requires forall i :: 0 <= i < |ms| ==> IsMean(ms[i], cs[i], sums[i], counts[i])
    ensures TotalSaving(ms, cs, sums, counts, d, q) >= 0.0
  {
    if q > 0 {
      TotalIsNonNegative(ms, cs, sums, counts, d, q - 1);
      assert IsMean(ms[q - 1], cs[q - 1], sums[q - 1], counts[q - 1]);
      ClusterSaves(ms[q - 1], cs[q - 1], sums[q - 1], counts[q - 1], d);
    }
  }

  /** Putting every centroid at the mean of its members, and leaving those of empty clusters, costs no
      more than where they were. */
  lemma RecentringCostsNoMore(points: seq<Vector>, assignments: seq<nat>, previous: seq<Vector>, centroids: seq<Vector>, d: nat)
    requires Assigns(assignments, |points|, |previous|) && Dimension(points, d) && Dimension(previous, d) && Dimension(centroids, d)
    requires IsRecentred(points, assignments, previous, d, centroids)
    ensures Cost(points, assignments, centroids) <= Cost(points, assignments, previous)
  {
    CostDrops(points, assignments, previous, centroids, d, |points|);
    TotalIsNonNegative(centroids, previous, Sums(points, assignments, |previous|, d, |points|),
                       Counts(assignments, |previous|, |points|), d, |previous|);
  }

  // ---- and no other centroids cost as little ----

  lemma {:induction false} CountsTheMembers(assignments: seq<nat>, k: nat, n: nat, q: nat)
    requires n <= |assignments| && (forall i :: 0 <= i < |assignments| ==> assignments[i] < k) && q < k
    ensures Counts(assignments, k, n)[q] == 0 <==> q !in assignments[..n]
  {
    if n > 0 {
      CountsTheMembers(assignments, k, n - 1, q);
      assert assignments[..n] == assignments[..n - 1] + [assignments[n - 1]];
    }
  }

  lemma {:induction false} NoMembersNoSum(points: seq<Vector>, assignments: seq<nat>, k: nat, d: nat, n: nat, q: nat)
    requires n <= |points| && Assigns(assignments, |points|, k) && Dimension(points, d) && q < k
    requires q !in assignments[..n]
    ensures Sums(points, assignments, k, d, n)[q] == Zeros(d)
  {
    if n > 0 {
      assert assignments[..n] == assignments[..n - 1] + [assignments[n - 1]];
      NoMembersNoSum(points, assignments, k, d, n - 1, q);
    }
  }

  lemma ZeroFactor(n: real, e: real)
    requires n > 0.0 && n * e == 0.0
    ensures e == 0.0
  {
  }

  lemma ZeroSquare(d: real)
    requires d * d == 0.0
    ensures d == 0.0
  {
    if d > 0.0 {
      ZeroFactor(d, d);
    } else if d < 0.0 {
      ZeroFactor(-d, d);
    }
  }

  lemma OnlyTheMeanSavesNothing(m: real, c: real, s: real, n: real)
    requires n > 0.0 && m * n == s && Saving(m, c, s, n) == 0.0
    ensures m == c
  {
    var d := m - c;
    assert 2.0 * s - n * (m + c) == n * d;
    assert d * (n * d) == n * (d * d);
    ZeroFactor(n, d * d);
    ZeroSquare(d);
  }

  lemma NoMembersSave(m: real, c: real, s: real, n: real)
    requires s == 0.0 && n == 0.0
    ensures Saving(m, c, s, n) == 0.0
  {
    assert 2.0 * s - n * (m + c) == 0.0;
  }

  /** Its members' mean, or anywhere if it has none. */
  ghost predicate IsBest(m: Vector, s: Vector, n: nat) {
    |m| == |s| && if n == 0 then s == Zeros(|s|) else forall j :: 0 <= j < |s| ==> m[j] * n as real == s[j]
  }

  lemma {:induction false} BestSaves(m: Vector, c: Vector, s: Vector, n: nat, j: nat)
    requires j <= |m| == |c| == |s| && IsBest(m, s, n)
    ensures SavingUpTo(m, c, s, n as real, j) >= 0.0
    ensures n > 0 && SavingUpTo(m, c, s, n as real, j) == 0.0 ==> m[..j] == c[..j]
  {
    if j > 0 {
      BestSaves(m, c, s, n, j - 1);
      if n > 0 {
        MeanSaves(m[j - 1], c[j - 1], s[j - 1], n as real);
        if SavingUpTo(m, c, s, n as real, j) == 0.0 {
          OnlyTheMeanSavesNothing(m[j - 1], c[j - 1], s[j - 1], n as real);
          assert m[..j] == m[..j - 1] + [m[j - 1]] && c[..j] == c[..j - 1] + [c[j - 1]];
        }
      } else {
        NoMembersSave(m[j - 1], c[j - 1], s[j - 1], n as real);
      }
    }
  }

  lemma {:induction false} BestsSave(ms: seq<Vector>, cs: seq<Vector>, sums: seq<Vector>, counts: seq<nat>, d: nat, q: nat)
    requires q <= |ms| == |cs| == |sums| == |counts|
    requires Dimension(ms, d) && Dimension(cs, d) && Dimension(sums, d)
    requires forall i :: 0 <= i < |ms| ==> IsBest(ms[i], sums[i], counts[i])
    ensures TotalSaving(ms, cs, sums, counts, d, q) >= 0.0
    ensures TotalSaving(ms, cs, sums, counts, d, q) == 0.0 ==> forall i :: 0 <= i < q && counts[i] > 0 ==> ms[i] == cs[i]
  {
    if q > 0 {
      BestsSave(ms, cs, sums, counts, d, q - 1);
      BestSaves(ms[q - 1], cs[q - 1], sums[q - 1], counts[q - 1], d);
      assert ms[q - 1][..d] == ms[q - 1] && cs[q - 1][..d] == cs[q - 1];
    }
  }

  lemma RecentredAreBest(points: seq<Vector>, assignments: seq<nat>, previous: seq<Vector>, centroids: seq<Vector>, d: nat, q: nat)
    requires Assigns(assignments, |points|, |previous|) && Dimension(points, d) && q < |previous|
    requires IsRecentred(points, assignments, previous, d, centroids)
    ensures IsBest(centroids[q], Sums(points, assignments, |previous|, d, |points|)[q], Counts(assignments, |previous|, |points|)[q])
    ensures Counts(assignments, |previous|, |points|)[q] == 0 <==> q !in assignments
  {
    var k, n := |previous|, |points|;
    assert assignments[..n] == assignments;
    CountsTheMembers(assignments, k, n, q);
    assert IsMean(centroids[q], previous[q], Sums(points, assignments, k, d, n)[q], Counts(assignments, k, n)[q]);
    if q !in assignments {
      NoMembersNoSum(points, assignments, k, d, n, q);
    }
  }

  /** For these assignments no centroids cost less, and only those that agree on every cluster with
      members cost as little; the others stay where they were. */
  lemma RecentringIsBest(
    points: seq<Vector>, assignments: seq<nat>, previous: seq<Vector>, centroids: seq<Vector>, others: seq<Vector>, d: nat)
    requires Assigns(assignments, |points|, |previous|) && |others| == |previous|
    requires Dimension(points, d) && Dimension(others, d) && Dimension(centroids, d)
    requires IsRecentred(points, assignments, previous, d, centroids)
    ensures Cost(points, assignments, centroids) <= Cost(points, assignments, others)
    ensures Cost(points, assignments, centroids) == Cost(points, assignments, others) ==>
      forall q :: 0 <= q < |others| && q in assignments ==> others[q] == centroids[q]
    ensures forall q :: 0 <= q < |previous| && q !in assignments ==> centroids[q] == previous[q]
  {
    var k, n := |previous|, |points|;
    var sums, counts := Sums(points, assignments, k, d, n), Counts(assignments, k, n);
    forall q | 0 <= q < k
      ensures IsBest(centroids[q], sums[q], counts[q]) && (counts[q] == 0 <==> q !in assignments)
      ensures counts[q] == 0 ==> centroids[q] == previous[q]
    {
      RecentredAreBest(points, assignments, previous, centroids, d, q);
      assert IsMean(centroids[q], previous[q], sums[q], counts[q]);
    }
    CostDrops(points, assignments, others, centroids, d, n);
    hide IsBest, IsMean, IsRecentred, Sums, Counts;
    BestsSave(centroids, others, sums, counts, d, k);
  }

  // ---- the loop ----

  /** Every point starts with the first centroid. */
  function Unassigned(n: nat): (a: seq<nat>)
    ensures |a| == n && forall i :: 0 <= i < n ==> a[i] == 0
  {
    seq(n, _ => 0)
  }

  datatype Iterate = Iterate(assignments: seq<nat>, centroids: seq<Vector>)

  ghost predicate Fits(points: seq<Vector>, k: nat, d: nat, it: Iterate) {
    Assigns(it.assignments, |points|, k) && |it.centroids| == k && Dimension(it.centroids, d)
  }

  ghost predicate AllNearest(points: seq<Vector>, centroids: seq<Vector>, assignments: seq<nat>) {
    |assignments| == |points| && forall i :: 0 <= i < |points| ==> IsNearest(points[i], centroids, assignments[i])
  }

  /** Half an iteration: every point to its nearest centroid, or every centroid to the mean of its points. */
  ghost predicate HalfStep(points: seq<Vector>, k: nat, d: nat, before: Iterate, after: Iterate, reassigns: bool)
    requires Dimension(points, d) && Fits(points, k, d, before) && Fits(points, k, d, after)
  {
    if reassigns then after.centroids == before.centroids && AllNearest(points, before.centroids, after.assignments)
    else after.assignments == before.assignments
         && IsRecentred(points, before.assignments, before.centroids, d, after.centroids)
  }

  /** A run from its seeds: halves of iterations in turn, a reassignment first, each costing no more
      than what it started from. */
  ghost predicate IsRun(points: seq<Vector>, seeds: seq<Vector>, d: nat, run: seq<Iterate>)
    requires Dimension(points, d)
  {
    && |run| > 0 && run[0] == Iterate(Unassigned(|points|), seeds)
    && (forall i :: 0 <= i < |run| ==> Fits(points, |seeds|, d, run[i]))
    && (forall i :: 0 < i < |run| ==> HalfStep(points, |seeds|, d, run[i - 1], run[i], i % 2 == 1))
    && (forall i, j :: 0 <= i < j < |run| ==>
          Cost(points, run[j].assignments, run[j].centroids) <= Cost(points, run[i].assignments, run[i].centroids))
  }

  lemma RunGrows(points: seq<Vector>, seeds: seq<Vector>, d: nat, run: seq<Iterate>, next: Iterate)
    requires Dimension(points, d) && IsRun(points, seeds, d, run) && Fits(points, |seeds|, d, next)
    requires HalfStep(points, |seeds|, d, run[|run| - 1], next, |run| % 2 == 1)
    requires var last := run[|run| - 1];
      Cost(points, next.assignments, next.centroids) <= Cost(points, last.assignments, last.centroids)
    ensures IsRun(points, seeds, d, run + [next])
  {
    hide HalfStep, Cost;
    var longer := run + [next];
    assert forall i :: 0 <= i < |run| ==> longer[i] == run[i];
  }

  lemma ReassignedRun(points: seq<Vector>, seeds: seq<Vector>, d: nat, run: seq<Iterate>, before: Iterate, after: Iterate)
    requires Dimension(points, d) && IsRun(points, seeds, d, run) && run[|run| - 1] == before && |run| % 2 == 1
    requires Assigns(after.assignments, |points|, |seeds|) && AllNearest(points, before.centroids, after.assignments)
    requires after.centroids == before.centroids
    ensures IsRun(points, seeds, d, run + [after])
  {
    ReassigningCostsNoMore(points, before.assignments, after.assignments, before.centroids, |points|);
    RunGrows(points, seeds, d, run, after);
  }

  lemma RecentredRun(points: seq<Vector>, seeds: seq<Vector>, d: nat, run: seq<Iterate>, before: Iterate, after: Iterate)
    requires Dimension(points, d) && IsRun(points, seeds, d, run) && run[|run| - 1] == before && |run| % 2 == 0
    requires |after.centroids| == |seeds| && Dimension(after.centroids, d) && after.assignments == before.assignments
    requires IsRecentred(points, before.assignments, before.centroids, d, after.centroids)
    ensures IsRun(points, seeds, d, run + [after])
  {
    RecentringCostsNoMore(points, before.assignments, before.centroids, after.centroids, d);
    RunGrows(points, seeds, d, run, after);
  }

  /** Every recentring follows a reassignment that moved some point. */
  ghost predicate RecentresAfterMoves(run: seq<Iterate>) {
    forall i :: 2 <= i < |run| && i % 2 == 0 ==> run[i - 1].assignments != run[i - 2].assignments
  }

  lemma MovesGrow(run: seq<Iterate>, next: Iterate)
    requires RecentresAfterMoves(run)
    requires |run| % 2 == 1 || (|run| >= 2 && run[|run| - 1].assignments != run[|run| - 2].assignments)
    ensures RecentresAfterMoves(run + [next])
  {
    assert forall i :: 0 <= i < |run| ==> (run + [next])[i] == run[i];
  }

  lemma RunStarts(points: seq<Vector>, seeds: seq<Vector>, d: nat, run: seq<Iterate>)
    requires Dimension(points, d) && Dimension(seeds, d) && seeds != [] && run == [Iterate(Unassigned(|points|), seeds)]
    ensures IsRun(points, seeds, d, run) && RecentresAfterMoves(run) && Fits(points, |seeds|, d, run[0])
  {
  }

  lemma AfterReassigning(points: seq<Vector>, seeds: seq<Vector>, d: nat, run: seq<Iterate>, before: Iterate, after: Iterate)
    returns (longer: seq<Iterate>)
    requires Dimension(points, d) && IsRun(points, seeds, d, run) && run[|run| - 1] == before && |run| % 2 == 1
    requires Assigns(after.assignments, |points|, |seeds|) && AllNearest(points, before.centroids, after.assignments)
    requires after.centroids == before.centroids && RecentresAfterMoves(run)
    ensures longer == run + [after] && |longer| % 2 == 0
    ensures IsRun(points, seeds, d, longer) && RecentresAfterMoves(longer)
    ensures longer[|longer| - 1] == after && longer[|longer| - 2] == before
  {
    ReassignedRun(points, seeds, d, run, before, after);
    MovesGrow(run, after);
    longer := run + [after];
  }

  lemma AfterRecentring(
    points: seq<Vector>, seeds: seq<Vector>, d: nat, run: seq<Iterate>, start: Iterate, before: Iterate, after: Iterate)
    returns (longer: seq<Iterate>)
    requires Dimension(points, d) && IsRun(points, seeds, d, run) && |run| >= 2 && |run| % 2 == 0
    requires run[|run| - 1] == before && run[|run| - 2] == start && start.assignments != before.assignments
    requires |after.centroids| == |seeds| && Dimension(after.centroids, d) && after.assignments == before.assignments
    requires IsRecentred(points, before.assignments, before.centroids, d, after.centroids) && RecentresAfterMoves(run)
    ensures longer == run + [after] && longer[|longer| - 1] == after && Fits(points, |seeds|, d, after)
    ensures IsRun(points, seeds, d, longer) && RecentresAfterMoves(longer)
  {
    RecentredRun(points, seeds, d, run, before, after);
    MovesGrow(run, after);
    longer := run + [after];
    assert longer[|run|] == after;
  }

  method Reassign(points: seq<Vector>, before: seq<nat>, centroids: seq<Vector>) returns (assignments: seq<nat>, moved: bool)
    requires Assigns(before, |points|, |centroids|) && centroids != []
    ensures Assigns(assignments, |points|, |centroids|)
    ensures forall i :: 0 <= i < |points| ==> IsNearest(points[i], centroids, assignments[i])
    ensures moved <==> assignments != before
  {
    assignments, moved := before, false;
    for i := 0 to |points|
      invariant Assigns(assignments, |points|, |centroids|)
      invariant forall j :: 0 <= j < i ==> IsNearest(points[j], centroids, assignments[j])
      invariant forall j :: i <= j < |points| ==> assignments[j] == before[j]
      invariant moved <==> exists j :: 0 <= j < i && assignments[j] != before[j]
    {
      var nearest := NearestCentroid(points[i], centroids);
      if assignments[i] != nearest {
        assignments := assignments[i := nearest];
        moved := true;
      }
    }
  }

  /**
   From any seeding. `run` is every pair of assignments and centroids the loop goes through. A run
   that settles stops on a reassignment; one that reaches the cap stops on a recentring.
   */
  method Lloyd(points: seq<Vector>, seeds: seq<Vector>)
    returns (assignments: seq<nat>, centroids: seq<Vector>, settled: bool, ghost run: seq<Iterate>)
    requires points != [] && seeds != [] && Dimension(points, |points[0]|) && Dimension(seeds, |points[0]|)
    ensures Assigns(assignments, |points|, |seeds|) && |centroids| == |seeds|
    ensures settled ==> AllNearest(points, centroids, assignments)
    ensures IsRun(points, seeds, |points[0]|, run) && run[|run| - 1] == Iterate(assignments, centroids)
    ensures if settled then |run| % 2 == 0 && |run| <= 2 * MAX_ITERATIONS else |run| == 2 * MAX_ITERATIONS + 1
    ensures RecentresAfterMoves(run)
    ensures settled ==> run[|run| - 1] == run[|run| - 2]
  {
    var d := |points[0]|;
    centroids := seeds;
    assignments := Unassigned(|points|);
    settled := false;
    run := [Iterate(assignments, centroids)];
    RunStarts(points, seeds, d, run);
    hide IsRecentred, Cost, IsRun, HalfStep, RecentresAfterMoves, Unassigned;
    for iteration := 0 to MAX_ITERATIONS
      invariant !settled && IsRun(points, seeds, d, run) && RecentresAfterMoves(run)
      invariant |run| == 2 * iteration + 1
      invariant run[|run| - 1] == Iterate(assignments, centroids) && Fits(points, |seeds|, d, run[|run| - 1])
    {
      ghost var before := Iterate(assignments, centroids);
      var moved;
      assignments, moved := Reassign(points, assignments, centroids);
      run := AfterReassigning(points, seeds, d, run, before, Iterate(assignments, centroids));
      if !moved {
        settled := true;
        return;
      }
      ghost var reassigned := Iterate(assignments, centroids);
      centroids := Recentre(points, assignments, centroids);
      run := AfterRecentring(points, seeds, d, run, before, reassigned, Iterate(assignments, centroids));
    }
  }
}
